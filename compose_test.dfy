/**
 * The package's own test cases: the chains of compose_test.go, built with
 * New and run with Invoke, with the results the tests expect. Strings are
 * values of the model; integer-to-string conversion is not modelled, so the
 * first test takes the two conversion functions as a parameter and relies
 * only on their round trip.
 */
module ComposeTests {
  import opened Types
  import opened Plan
  import PlanProps
  import opened Compose

  // Signatures of the test helpers.
  const IntToStr: Signature := Sig([IntTy], [StringTy], false)
  const StrToInt: Signature := Sig([StringTy], [IntTy], false)
  const ArgVard: Signature := Sig([StringTy, SliceOf(IntTy)], [StringTy, IntTy], true)
  const ArgVardMinusVard: Signature := Sig([StringTy], [StringTy], false)
  const ArgVardLit: Signature := Sig([StringTy, IntTy], [StringTy, IntTy], false)
  const ArgVardPlus: Signature := Sig([StringTy, IntTy, IntTy], [StringTy, IntTy, IntTy], false)
  const ArgVardSlice: Signature := Sig([StringTy, SliceOf(IntTy)], [StringTy, SliceOf(IntTy)], false)
  const JustVard: Signature := Sig([SliceOf(IntTy)], [SliceOf(IntTy)], true)
  const Empty: Signature := Sig([], [], false)

  /** The sum of the integers in a slice. */
  function SumInts(items: seq<Value>): int
  {
    if items == [] then 0 else (if items[0].Int? then items[0].i else 0) + SumInts(items[1..])
  }

  // Bodies of the test helpers, on value tuples. Tuples of other shapes are
  // returned unchanged; no chain of the tests produces one.

  function ArgVardBody(vs: seq<Value>): seq<Value>
  {
    if |vs| == 2 && vs[0].Str? && vs[1].Slice? then [Str(vs[0].s + " argVard"), Int(SumInts(vs[1].items))] else vs
  }

  function SuffixBody(vs: seq<Value>, suffix: string): seq<Value>
  {
    if |vs| >= 1 && vs[0].Str? then [Str(vs[0].s + suffix)] + vs[1..] else vs
  }

  function JustVardBody(vs: seq<Value>): seq<Value>
  {
    if |vs| == 1 then [vs[0]] else vs
  }

  // The function tables of the chains: function 0 is the producer, 1 the consumer.

  function MinusTable(i: nat, vs: seq<Value>): seq<Value>
  {
    if i == 0 then SuffixBody(vs, " minus") else ArgVardBody(vs)
  }

  function LitTable(i: nat, vs: seq<Value>): seq<Value>
  {
    if i == 0 then SuffixBody(vs, " lit") else ArgVardBody(vs)
  }

  function PlusTable(i: nat, vs: seq<Value>): seq<Value>
  {
    if i == 0 then SuffixBody(vs, " plus") else ArgVardBody(vs)
  }

  function SliceTable(i: nat, vs: seq<Value>): seq<Value>
  {
    if i == 0 then SuffixBody(vs, " slice") else ArgVardBody(vs)
  }

  function EmptyTable(i: nat, vs: seq<Value>): seq<Value>
  {
    if i == 0 then [] else JustVardBody(vs)
  }

  /** Composes two functions with the given signatures; both are functions, so the chain check decides. */
  method NewPair(a: Signature, b: Signature) returns (r: Result<Composed>)
    ensures ChainOutcome([a, b], r)
  {
    var fns := [Func(a), Func(b)];
    r := New(fns);
    assert SigsOf(fns) == [a, b];
  }

  /**
   * Composes a two-function chain the check accepts and calls it on `args`,
   * for which the producer returns `ws`: the composed function has the
   * producer's parameters and the consumer's returns, and returns what the
   * consumer makes of `ws` as Feed hands it over.
   */
  method RunPair(a: Signature, b: Signature, apply: (nat, seq<Value>) -> seq<Value>, args: seq<Value>, ws: seq<Value>)
    returns (c: Composed, r: Option<seq<Value>>)
    requires PairCheck(a.outs, b, 1).Ok? && apply(0, args) == ws && |ws| == |a.outs|
    ensures c.ins == a.ins && c.outs == b.outs && c.variadic == a.variadic
    ensures b.variadic ==> b.Fixed() <= |ws|
    ensures r == Some(apply(1, Feed(a.outs, b, ws)))
  {
    var made := NewPair(a, b);
    assert PairOk([a, b], 1);
    c := made.value;
    r := Invoke(c, apply, args);
    PlanProps.ReplayPair([a, b], apply, args);
  }

  /** Two conversions that undo each other compose to the identity on the tested input. */
  method TestCompose(apply: (nat, seq<Value>) -> seq<Value>) returns (c: Composed, r: Option<seq<Value>>)
    requires apply(1, apply(0, [Int(10)])) == [Int(10)]
    ensures c.ins == [IntTy] && c.outs == [IntTy] && !c.variadic
    ensures r == Some([Int(10)])
  {
    var made := NewPair(IntToStr, StrToInt);
    assert PairOk([IntToStr, StrToInt], 1);
    c := made.value;
    r := Invoke(c, apply, [Int(10)]);
    PlanProps.ReplayNests([IntToStr, StrToInt], 2, apply, [Int(10)]);
  }

  // What the helpers of the variadic tests compute on the tested inputs.

  lemma MinusValues()
    ensures MinusTable(0, [Str("foo")]) == [Str("foo minus")]
    ensures Feed(ArgVardMinusVard.outs, ArgVard, [Str("foo minus")]) == [Str("foo minus"), Slice(SliceOf(IntTy), [])]
    ensures MinusTable(1, [Str("foo minus"), Slice(SliceOf(IntTy), [])]) == [Str("foo minus argVard"), Int(0)]
  {
    var args, ws := [Str("foo")], [Str("foo minus")];
    assert args[1..] == [] && ws[..1] == ws && ws[1..] == [];
    assert "foo" + " minus" == "foo minus";
    assert "foo minus" + " argVard" == "foo minus argVard";
  }

  lemma LitValues()
    ensures LitTable(0, [Str("foo"), Int(7)]) == [Str("foo lit"), Int(7)]
    ensures Feed(ArgVardLit.outs, ArgVard, [Str("foo lit"), Int(7)]) == [Str("foo lit"), Slice(SliceOf(IntTy), [Int(7)])]
    ensures LitTable(1, [Str("foo lit"), Slice(SliceOf(IntTy), [Int(7)])]) == [Str("foo lit argVard"), Int(7)]
  {
    var args, ws := [Str("foo"), Int(7)], [Str("foo lit"), Int(7)];
    assert args[1..] == [Int(7)] && ws[..1] == [Str("foo lit")] && ws[1..] == [Int(7)];
    assert [Int(7)][1..] == [];
    assert "foo" + " lit" == "foo lit";
    assert "foo lit" + " argVard" == "foo lit argVard";
  }

  lemma PlusValues()
    ensures PlusTable(0, [Str("foo"), Int(8), Int(9)]) == [Str("foo plus"), Int(8), Int(9)]
    ensures Feed(ArgVardPlus.outs, ArgVard, [Str("foo plus"), Int(8), Int(9)])
         == [Str("foo plus"), Slice(SliceOf(IntTy), [Int(8), Int(9)])]
    ensures PlusTable(1, [Str("foo plus"), Slice(SliceOf(IntTy), [Int(8), Int(9)])]) == [Str("foo plus argVard"), Int(17)]
  {
    var args, ws, items := [Str("foo"), Int(8), Int(9)], [Str("foo plus"), Int(8), Int(9)], [Int(8), Int(9)];
    assert args[1..] == items && ws[..1] == [Str("foo plus")] && ws[1..] == items;
    assert items[1..] == [Int(9)] && items[1..][1..] == [];
    assert "foo" + " plus" == "foo plus";
    assert "foo plus" + " argVard" == "foo plus argVard";
  }

  lemma SliceValues()
    ensures var sl := Slice(SliceOf(IntTy), [Int(10), Int(11), Int(12)]);
      && SliceTable(0, [Str("foo"), sl]) == [Str("foo slice"), sl]
      && Feed(ArgVardSlice.outs, ArgVard, [Str("foo slice"), sl]) == [Str("foo slice"), sl]
      && SliceTable(1, [Str("foo slice"), sl]) == [Str("foo slice argVard"), Int(33)]
  {
    var items := [Int(10), Int(11), Int(12)];
    var args := [Str("foo"), Slice(SliceOf(IntTy), items)];
    assert args[1..] == [Slice(SliceOf(IntTy), items)];
    assert items[1..] == [Int(11), Int(12)] && items[1..][1..] == [Int(12)] && items[1..][1..][1..] == [];
    assert "foo" + " slice" == "foo slice";
    assert "foo slice" + " argVard" == "foo slice argVard";
  }

  /** A producer returning only the fixed parameter: the variadic slot receives an empty slice. */
  method TestVariadicMinus() returns (c: Composed, r: Option<seq<Value>>)
    ensures c.ins == [StringTy] && c.outs == [StringTy, IntTy]
    ensures r == Some([Str("foo minus argVard"), Int(0)])
  {
    MinusValues();
    c, r := RunPair(ArgVardMinusVard, ArgVard, MinusTable, [Str("foo")], [Str("foo minus")]);
  }

  /** One trailing integer becomes a slice of one. */
  method TestVariadicLit() returns (c: Composed, r: Option<seq<Value>>)
    ensures c.ins == [StringTy, IntTy] && c.outs == [StringTy, IntTy]
    ensures r == Some([Str("foo lit argVard"), Int(7)])
  {
    LitValues();
    c, r := RunPair(ArgVardLit, ArgVard, LitTable, [Str("foo"), Int(7)], [Str("foo lit"), Int(7)]);
  }

  /** Two trailing integers become a slice of two, summed by the consumer. */
  method TestVariadicPlus() returns (c: Composed, r: Option<seq<Value>>)
    ensures c.ins == [StringTy, IntTy, IntTy] && c.outs == [StringTy, IntTy]
    ensures r == Some([Str("foo plus argVard"), Int(17)])
  {
    PlusValues();
    c, r := RunPair(ArgVardPlus, ArgVard, PlusTable, [Str("foo"), Int(8), Int(9)], [Str("foo plus"), Int(8), Int(9)]);
  }

  /** A producer already returning the slice: it is passed through as is, with a spread call. */
  method TestVariadicSlice() returns (c: Composed, r: Option<seq<Value>>)
    ensures c.ins == [StringTy, SliceOf(IntTy)] && c.outs == [StringTy, IntTy]
    ensures r == Some([Str("foo slice argVard"), Int(33)])
  {
    var sl := Slice(SliceOf(IntTy), [Int(10), Int(11), Int(12)]);
    SliceValues();
    c, r := RunPair(ArgVardSlice, ArgVard, SliceTable, [Str("foo"), sl], [Str("foo slice"), sl]);
  }

  /** A producer returning nothing feeds a purely variadic consumer an empty slice. */
  method TestEmptyToJustVard() returns (c: Composed, r: Option<seq<Value>>)
    ensures c.ins == [] && c.outs == [SliceOf(IntTy)]
    ensures r == Some([Slice(SliceOf(IntTy), [])])
  {
    var none: seq<Value> := [];
    c, r := RunPair(Empty, JustVard, EmptyTable, none, none);
    assert Feed(Empty.outs, JustVard, none) == [Slice(SliceOf(IntTy), [])] by {
      assert none[..0] == [] && none[0..] == [];
    }
  }

  /** Composes two functions whose pair the check refuses: the error is the pair's. */
  method RefusePair(a: Signature, b: Signature) returns (r: Result<Composed>)
    requires PairCheck(a.outs, b, 1).Err?
    ensures r == Err(PairCheck(a.outs, b, 1).error)
  {
    r := NewPair(a, b);
    assert !PairOk([a, b], 1);
  }

  /** A single function is refused before it is looked at. */
  method TestTooFewFunctions() returns (r: Result<Composed>)
    ensures r == Err(TooFewFunctions)
  {
    r := New([Func(IntToStr)]);
  }

  /** The first argument that is not a function is reported by its position. */
  method TestNotAFunction() returns (r: Result<Composed>)
    ensures r == Err(NotAFunction(1))
  {
    r := New([Func(IntToStr), NonFunc, Func(StrToInt)]);
  }

  /** A nil argument is reported as a non-function by the corrected kind check. */
  method TestNilArgument() returns (r: Result<Composed>)
    ensures r == Err(NotAFunction(0))
  {
    r := New([Nil, Func(StrToInt)]);
  }

  /** Two returns cannot feed one non-variadic parameter. */
  method TestArityMismatch() returns (r: Result<Composed>)
    ensures r == Err(ArityMismatch(1, 2, 1))
  {
    r := RefusePair(ArgVardLit, ArgVardMinusVard);
  }

  /** A string cannot feed an int parameter. */
  method TestTypeMismatch() returns (r: Result<Composed>)
    ensures r == Err(TypeMismatch(1, 0))
  {
    r := RefusePair(IntToStr, IntToStr);
  }

  /** No return at all cannot feed a fixed parameter in front of the variadic one. */
  method TestTooFewReturns() returns (r: Result<Composed>)
    ensures r == Err(TooFewReturns(1))
  {
    r := RefusePair(Empty, ArgVard);
  }

  /** A string among the values to collapse into an int slice is reported by its offset in the tail. */
  method TestVariadicTypeMismatch() returns (r: Result<Composed>)
    ensures r == Err(VariadicTypeMismatch(1, 0))
  {
    r := RefusePair(ArgVardLit, JustVard);
  }
}
