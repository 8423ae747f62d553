/**
 * The constructor of a composed function and the composed function itself.
 * The constructor inspects its arguments, checks every adjacent pair of
 * signatures and builds the plan once; the composed function replays that
 * plan on each invocation. Functions are identified by their position in the
 * argument list, and calling function i on a tuple is `apply(i, tuple)`.
 */
module Compose {
  import opened Types
  import opened Plan
  import PlanProps

  /** An argument of the constructor: a function with its signature, another value, or nil. */
  datatype Arg = Func(sig: Signature) | NonFunc | Nil

  /** What asking an argument for its kind yields. */
  datatype Probe = IsFunc(sig: Signature) | NotFunc | Panics

  /**
   * The kind check of the argument scan of New, as written: the type of a nil
   * argument is itself nil, and asking a nil type for its kind panics.
   */
  function ProbeAsWritten(a: Arg): (p: Probe)
    ensures p.Panics? <==> a.Nil?
    ensures p.IsFunc? <==> a.Func?
    ensures p.IsFunc? ==> p.sig == a.sig
  {
    match a
    case Func(s) => IsFunc(s)
    case NonFunc => NotFunc
    case Nil => Panics
  }

  /** The kind check as intended: nil is one more value that is not a function. */
  function ProbeArg(a: Arg): (p: Probe)
    ensures !p.Panics?
    ensures p.IsFunc? <==> a.Func?
    ensures p.IsFunc? ==> p.sig == a.sig
  {
    match a
    case Func(s) => IsFunc(s)
    case _ => NotFunc
  }

  /** New(nil, f) panics as written instead of reporting argument 0. */
  lemma NilArgumentPanics(s: Signature)
    ensures ProbeAsWritten(Nil) == Panics
    ensures ProbeArg(Nil) == NotFunc && ProbeArg(Func(s)) == IsFunc(s)
  {
  }

  /** The first n arguments are functions. */
  predicate AllFuncs(fns: seq<Arg>, n: nat)
    requires n <= |fns|
  {
    forall j :: 0 <= j < n ==> fns[j].Func?
  }

  /** The signatures of arguments that are all functions. */
  function SigsOf(fns: seq<Arg>): (sigs: seq<Signature>)
    requires AllFuncs(fns, |fns|)
    ensures |sigs| == |fns| && forall j :: 0 <= j < |fns| ==> fns[j] == Func(sigs[j])
  {
    seq(|fns|, j requires 0 <= j < |fns| => fns[j].sig)
  }

  /**
   * Collects the signature of every argument, stopping at the first argument
   * that is not a function and reporting its index.
   */
  method FuncTypesVals(fns: seq<Arg>) returns (r: Result<seq<Signature>>)
    ensures r.Ok? <==> AllFuncs(fns, |fns|)
    ensures r.Ok? ==> r.value == SigsOf(fns)
    ensures r.Err? ==>
              r.error.NotAFunction? && r.error.arg < |fns|
              && !fns[r.error.arg].Func? && AllFuncs(fns, r.error.arg)
  {
    var ts := new Signature[|fns|];
    for i := 0 to |fns|
      invariant AllFuncs(fns, i)
      invariant forall j :: 0 <= j < i ==> fns[j] == Func(ts[j])
    {
      var probe := ProbeArg(fns[i]);
      if !probe.IsFunc? {
        return Err(NotAFunction(i));
      }
      ts[i] := probe.sig;
    }
    return Ok(ts[..]);
  }

  /** Reads a signature's parameter and return types into fresh lists. */
  method GetInOut(s: Signature) returns (ins: seq<Ty>, outs: seq<Ty>)
    ensures ins == s.ins && outs == s.outs
  {
    var a := new Ty[|s.ins|];
    for i := 0 to a.Length
      invariant forall j :: 0 <= j < i ==> a[j] == s.ins[j]
    {
      a[i] := s.ins[i];
    }
    ins := a[..];
    var b := new Ty[|s.outs|];
    for i := 0 to b.Length
      invariant forall j :: 0 <= j < i ==> b[j] == s.outs[j]
    {
      b[i] := s.outs[i];
    }
    outs := b[..];
  }

  /** The call step for function idx: a spread call when it is variadic. */
  function GetCaller(vard: bool, idx: nat): Step
  {
    Call(idx, vard)
  }

  /**
   * The variadic check for consumer `s` at chain index fnIdx, fed by returns
   * typed `out`: no correction for an exact match, an error for too few
   * returns or a tail value of the wrong type, otherwise the correction.
   */
  method CheckVariadic(s: Signature, out: seq<Ty>, fnIdx: nat) returns (r: Result<Option<Step>>)
    requires s.variadic
    ensures r == VariadicCheck(out, s, fnIdx)
  {
    var ln, lo := |s.ins| - 1, |out|;
    if ln == lo - 1 && s.ins[ln] == out[ln] {
      return Ok(None);
    } else if ln > lo {
      return Err(TooFewReturns(fnIdx));
    }
    var sl := s.ins[ln];
    var v := sl.elem;
    for i := 0 to lo - ln
      invariant forall j :: ln <= j < ln + i ==> out[j] == v
    {
      if out[ln + i] != v {
        PlanProps.FirstNotIs(out[ln..], v, i);
        return Err(VariadicTypeMismatch(fnIdx, i));
      }
    }
    PlanProps.FirstNotIs(out[ln..], v, lo - ln);
    return Ok(Some(Correct(ln, sl, lo - ln)));
  }

  /**
   * The outcome of checking a chain of signatures: it is accepted exactly when
   * every adjacent pair is; the composed function then has the first
   * function's parameters and variadic flag, the last function's returns and
   * the plan of the whole chain; a refusal carries the error of the first
   * refused pair.
   */
  ghost predicate ChainOutcome(sigs: seq<Signature>, r: Result<Composed>)
    requires |sigs| >= 1
  {
    && (r.Ok? <==> Chains(sigs, |sigs|))
    && (r.Ok? ==>
          r.value == Composed(sigs[0].ins, sigs[|sigs| - 1].outs, sigs[0].variadic, PlanFor(sigs, |sigs|)))
    && (r.Err? ==>
          exists i :: 0 < i < |sigs| && Chains(sigs, i) && PairCheck(sigs[i - 1].outs, sigs[i], i) == Err(r.error))
  }

  /** A chain whose pair at index i is the first refused one yields that pair's error. */
  lemma Refused(sigs: seq<Signature>, i: nat, e: Error)
    requires 0 < i < |sigs| && Chains(sigs, i)
    requires PairCheck(sigs[i - 1].outs, sigs[i], i) == Err(e)
    ensures ChainOutcome(sigs, Err(e))
  {
    assert !PairOk(sigs, i);
  }

  /**
   * After the variadic or the arity check has let the pair through, the
   * positional scan decides: a mismatch at the first differing fixed position
   * j, or acceptance with the correction found.
   */
  lemma ScanDecides(out: seq<Ty>, s: Signature, i: nat, correction: Option<Step>, j: nat)
    requires s.variadic ==> VariadicCheck(out, s, i) == Ok(correction)
    requires !s.variadic ==> |s.ins| == |out| && correction.None?
    requires Positional(s) <= |out| && j == FirstDiff(s.ins[..Positional(s)], out)
    ensures PairCheck(out, s, i) == if j < Positional(s) then Err(TypeMismatch(i, j)) else Ok(correction)
  {
    if !s.variadic {
      assert s.ins[..Positional(s)] == s.ins;
    }
  }

  /** An accepted pair at index i extends the accepted prefix and the plan by its segment. */
  lemma Accepted(sigs: seq<Signature>, i: nat, correction: Option<Step>)
    requires 0 < i < |sigs| && Chains(sigs, i)
    requires PairCheck(sigs[i - 1].outs, sigs[i], i) == Ok(correction)
    ensures Chains(sigs, i + 1)
    ensures PlanFor(sigs, i + 1) == PlanFor(sigs, i)
              + (match correction case None => [] case Some(c) => [c]) + [Call(i, sigs[i].variadic)]
  {
    PlanProps.SegmentShape(sigs, i);
  }

  /**
   * The body of the pair loop up to the append: the variadic check or the
   * arity check, then the positional scan of the fixed parameters against the
   * producer's returns `out`, for consumer `s` at chain index i.
   */
  method CheckPair(out: seq<Ty>, s: Signature, i: nat) returns (r: Result<Option<Step>>)
    ensures r == PairCheck(out, s, i)
  {
    var correction: Option<Step> := None;
    var curIn, nextOut := GetInOut(s);
    if s.variadic {
      var c := CheckVariadic(s, out, i);
      if c.Err? {
        return Err(c.error);
      }
      correction := c.value;
      curIn := curIn[..|curIn| - 1];
    } else if |curIn| != |out| {
      return Err(ArityMismatch(i, |out|, |curIn|));
    }
    assert curIn == s.ins[..Positional(s)] && |curIn| <= |out|;
    for j := 0 to |curIn|
      invariant forall jj :: 0 <= jj < j ==> curIn[jj] == out[jj]
    {
      if curIn[j] != out[j] {
        PlanProps.FirstDiffIs(curIn, out, j);
        ScanDecides(out, s, i, correction, j);
        return Err(TypeMismatch(i, j));
      }
    }
    PlanProps.FirstDiffIs(curIn, out, |curIn|);
    ScanDecides(out, s, i, correction, |curIn|);
    return Ok(correction);
  }

  /** Checks every adjacent pair of the chain and assembles the plan. */
  method GetInOutCallers(sigs: seq<Signature>) returns (r: Result<Composed>)
    requires |sigs| >= 1
    ensures ChainOutcome(sigs, r)
  {
    var ins, out := GetInOut(sigs[0]);
    var vard := sigs[0].variadic;
    var callers := [GetCaller(vard, 0)];
    for i := 1 to |sigs|
      invariant out == sigs[i - 1].outs
      invariant Chains(sigs, i)
      invariant callers == PlanFor(sigs, i)
    {
      var s := sigs[i];
      var nextOut := s.outs;
      var checked := CheckPair(out, s, i);
      if checked.Err? {
        Refused(sigs, i, checked.error);
        return Err(checked.error);
      }
      var correction := checked.value;
      Accepted(sigs, i, correction);
      var c := GetCaller(s.variadic, i);
      if correction.None? {
        callers := callers + [c];
      } else {
        callers := callers + [correction.value, c];
      }
      out := nextOut;
    }
    return Ok(Composed(ins, out, vard, callers));
  }

  /**
   * Composes the functions passed: refuses fewer than two arguments before
   * looking at any of them, then the first argument that is not a function,
   * then the first refused pair; otherwise returns the composed function.
   */
  method New(fns: seq<Arg>) returns (r: Result<Composed>)
    ensures |fns| < 2 ==> r == Err(TooFewFunctions)
    ensures |fns| >= 2 && !AllFuncs(fns, |fns|) ==>
              r.Err? && r.error.NotAFunction? && r.error.arg < |fns|
              && !fns[r.error.arg].Func? && AllFuncs(fns, r.error.arg)
    ensures |fns| >= 2 && AllFuncs(fns, |fns|) ==> ChainOutcome(SigsOf(fns), r)
  {
    if |fns| < 2 {
      return Err(TooFewFunctions);
    }
    var sigs := FuncTypesVals(fns);
    if sigs.Err? {
      return Err(sigs.error);
    }
    r := GetInOutCallers(sigs.value);
  }

  /**
   * The correction step: keeps the first k values and replaces the remaining
   * n by one slice of type sl holding them in order.
   */
  method Correction(vs: seq<Value>, k: nat, sl: Ty, n: int) returns (r: seq<Value>)
    requires 0 <= n && |vs| == k + n
    ensures r == vs[..k] + [Slice(sl, vs[k..])]
    ensures |r| == k + 1 && r[..k] == vs[..k] && |r[k].items| == n
  {
    var items := new Value[n];
    for i := 0 to n
      invariant forall j :: 0 <= j < i ==> items[j] == vs[k + j]
    {
      items[i] := vs[k + i];
    }
    assert items[..] == vs[k..];
    r := vs[..k] + [Slice(sl, items[..])];
  }

  /**
   * Invokes the composed function: runs the plan's steps in order, each on
   * the tuple the previous one produced. None when a correction meets a tuple
   * whose tail is not of the length fixed at construction.
   */
  method Invoke(c: Composed, apply: (nat, seq<Value>) -> seq<Value>, args: seq<Value>) returns (r: Option<seq<Value>>)
    ensures r == Replay(c.plan, apply, args)
  {
    var vals := args;
    for i := 0 to |c.plan|
      invariant Replay(c.plan[..i], apply, args) == Some(vals)
    {
      assert c.plan[..i + 1][..i] == c.plan[..i];
      match c.plan[i]
      case Call(idx, _) =>
        vals := apply(idx, vals);
      case Correct(k, sl, n) =>
        if !(0 <= n && |vals| == k + n) {
          PlanProps.ReplayStuck(c.plan, i + 1, apply, args);
          return None;
        }
        vals := Correction(vals, k, sl, n);
    }
    assert c.plan[..|c.plan|] == c.plan;
    return Some(vals);
  }
}
