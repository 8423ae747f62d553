/**
 * The specification side of the composition engine: which adjacent pairs of
 * signatures are accepted (and with which error a pair is refused), the plan of
 * steps built for an accepted chain, and what replaying a plan does, both on
 * type tuples and on value tuples.
 */
module Plan {
  import opened Types

  datatype Option<T> = None | Some(value: T)

  /** The construction errors, each with the indices the error message reports. */
  datatype Error =
    | TooFewFunctions
    | NotAFunction(arg: nat)
    | ArityMismatch(fnIdx: nat, outLen: nat, inLen: nat)
    | TypeMismatch(fnIdx: nat, pos: nat)
    | TooFewReturns(fnIdx: nat)
    | VariadicTypeMismatch(fnIdx: nat, pos: nat)

  datatype Result<T> = Ok(value: T) | Err(error: Error)

  /**
   * One step of a plan: call function `idx` (as a spread call when `spread`),
   * or collapse the tuple's tail from position `k` on, which holds `toConvert`
   * values, into one slice of type `sliceTy`.
   */
  datatype Step = Call(idx: nat, spread: bool) | Correct(k: nat, sliceTy: Ty, toConvert: int)

  /** The composed callable: its signature and the plan it replays. */
  datatype Composed = Composed(ins: seq<Ty>, outs: seq<Ty>, variadic: bool, plan: seq<Step>)

  // ---------------------------------------------------------------------------
  // Checking one producer/consumer pair
  // ---------------------------------------------------------------------------

  /** The first position where `a` and `b` disagree, or |a| when `b` starts with `a`. */
  function FirstDiff(a: seq<Ty>, b: seq<Ty>): (j: nat)
    requires |a| <= |b|
    ensures j <= |a|
    ensures forall i :: 0 <= i < j ==> a[i] == b[i]
    ensures j < |a| ==> a[j] != b[j]
  {
    if a == [] || a[0] != b[0] then 0 else 1 + FirstDiff(a[1..], b[1..])
  }

  /** The first position of `ts` not holding `t`, or |ts| when all do. */
  function FirstNot(ts: seq<Ty>, t: Ty): (j: nat)
    ensures j <= |ts|
    ensures forall i :: 0 <= i < j ==> ts[i] == t
    ensures j < |ts| ==> ts[j] != t
  {
    if ts == [] || ts[0] != t then 0 else 1 + FirstNot(ts[1..], t)
  }

  /** The producer's last return value already is the consumer's variadic slice. */
  predicate ExactVariadic(s: Signature, out: seq<Ty>)
    requires s.variadic
  {
    s.Fixed() == |out| - 1 && s.ins[s.Fixed()] == out[s.Fixed()]
  }

  /** Every return value from the consumer's first variadic position on has the slice's element type. */
  predicate TailCollapsible(s: Signature, out: seq<Ty>)
    requires s.variadic
  {
    s.Fixed() <= |out| && forall j :: s.Fixed() <= j < |out| ==> out[j] == s.ins[s.Fixed()].elem
  }

  /**
   * Declaratively, when the producer's return types `out` may feed consumer `s`:
   * identical type lists for a non-variadic consumer; for a variadic one, the
   * fixed parameters match the first returns positionally and the rest either is
   * one value of the slice type itself or consists of element-typed values.
   */
  predicate Compatible(out: seq<Ty>, s: Signature)
  {
    if s.variadic then
      s.Fixed() <= |out|
      && (forall j :: 0 <= j < s.Fixed() ==> s.ins[j] == out[j])
      && (ExactVariadic(s, out) || TailCollapsible(s, out))
    else
      |s.ins| == |out| && forall j :: 0 <= j < |out| ==> s.ins[j] == out[j]
  }

  /**
   * The decision of the variadic check: no correction for an exact match, an
   * error when too few values precede the variadic slot or a tail value has the
   * wrong type, and otherwise a correction collapsing the tail.
   */
  function VariadicCheck(out: seq<Ty>, s: Signature, fnIdx: nat): (r: Result<Option<Step>>)
    requires s.variadic
    ensures r == Ok(None) <==> ExactVariadic(s, out)
    ensures (r.Ok? && r.value.Some?) <==> !ExactVariadic(s, out) && TailCollapsible(s, out)
    ensures r.Ok? && r.value.Some? ==>
              r.value.value == Correct(s.Fixed(), s.ins[s.Fixed()], |out| - s.Fixed())
    ensures r.Ok? ==> s.Fixed() <= |out|
    ensures r.Err? ==> r.error.TooFewReturns? || r.error.VariadicTypeMismatch?
    ensures r.Err? ==> r.error.fnIdx == fnIdx
    ensures r.Err? && r.error.TooFewReturns? <==> !ExactVariadic(s, out) && s.Fixed() > |out|
    ensures r.Err? && r.error.VariadicTypeMismatch? ==>
              var k, p := s.Fixed(), r.error.pos;
              k + p < |out| && out[k + p] != s.ins[k].elem
              && forall j :: k <= j < k + p ==> out[j] == s.ins[k].elem
  {
    var k := s.Fixed();
    if ExactVariadic(s, out) then Ok(None)
    else if k > |out| then Err(TooFewReturns(fnIdx))
    else
      var p := FirstNot(out[k..], s.ins[k].elem);
      if p < |out| - k then Err(VariadicTypeMismatch(fnIdx, p))
      else Ok(Some(Correct(k, s.ins[k], |out| - k)))
  }

  /** Number of parameters that are checked position by position against the returns. */
  function Positional(s: Signature): (m: nat)
    ensures m == if s.variadic then |s.ins| - 1 else |s.ins|
  {
    if s.variadic then s.Fixed() else |s.ins|
  }

  /**
   * Everything checked for the pair (producer returning `out`, consumer `s` at
   * chain index `fnIdx`), in the order the checks are made: the variadic check
   * or the arity check first, then the positional identity of the fixed
   * parameters. On success, the correction step to run before the call, if any.
   */
  function PairCheck(out: seq<Ty>, s: Signature, fnIdx: nat): (r: Result<Option<Step>>)
    ensures r.Ok? && r.value.Some? ==> s.variadic && r.value.value.Correct?
    ensures r.Err? ==> !r.error.TooFewFunctions? && !r.error.NotAFunction? && r.error.fnIdx == fnIdx
  {
    if s.variadic then
      match VariadicCheck(out, s, fnIdx)
      case Err(e) => Err(e)
      case Ok(c) =>
        var j := FirstDiff(s.ins[..s.Fixed()], out);
        if j < s.Fixed() then Err(TypeMismatch(fnIdx, j)) else Ok(c)
    else if |s.ins| != |out| then Err(ArityMismatch(fnIdx, |out|, |s.ins|))
    else
      var j := FirstDiff(s.ins, out);
      if j < |s.ins| then Err(TypeMismatch(fnIdx, j)) else Ok(None)
  }

  // ---------------------------------------------------------------------------
  // The plan
  // ---------------------------------------------------------------------------

  /** Function `i` (0 < i) accepts the returns of function `i - 1`. */
  predicate PairOk(sigs: seq<Signature>, i: nat)
    requires 0 < i < |sigs|
  {
    PairCheck(sigs[i - 1].outs, sigs[i], i).Ok?
  }

  /** Every adjacent pair among the first n functions is accepted. */
  predicate Chains(sigs: seq<Signature>, n: nat)
    requires n <= |sigs|
  {
    forall i :: 0 < i < n ==> PairOk(sigs, i)
  }

  /**
   * The correction step placed just before the call of function i: one exactly
   * when function i is variadic and function i - 1's last return is not
   * already its slice.
   */
  function CorrectionFor(sigs: seq<Signature>, i: nat): seq<Step>
    requires 0 < i < |sigs|
  {
    var out, s := sigs[i - 1].outs, sigs[i];
    if s.variadic && !ExactVariadic(s, out)
    then [Correct(s.Fixed(), s.ins[s.Fixed()], |out| - s.Fixed())]
    else []
  }

  /** The steps function i (0 < i) contributes: its correction, if any, then its call. */
  function Segment(sigs: seq<Signature>, i: nat): seq<Step>
    requires 0 < i < |sigs|
  {
    CorrectionFor(sigs, i) + [Call(i, sigs[i].variadic)]
  }

  /** The plan for the first n functions of a chain. */
  function PlanFor(sigs: seq<Signature>, n: nat): (p: seq<Step>)
    requires 1 <= n <= |sigs|
  {
    if n == 1 then [Call(0, sigs[0].variadic)]
    else PlanFor(sigs, n - 1) + Segment(sigs, n - 1)
  }

  /** The functions a plan calls, in the order it calls them. */
  function CallIndices(p: seq<Step>): seq<nat>
  {
    if p == [] then []
    else CallIndices(p[..|p| - 1]) + (if p[|p| - 1].Call? then [p[|p| - 1].idx] else [])
  }

  // ---------------------------------------------------------------------------
  // Replaying a plan
  // ---------------------------------------------------------------------------

  /**
   * One step on type tuples. A call needs exactly the callee's parameter types;
   * a correction needs `toConvert` tail values of the slice's element type.
   */
  function TyStep(sigs: seq<Signature>, st: Step, ts: seq<Ty>): Option<seq<Ty>>
  {
    match st
    case Call(i, _) =>
      if i < |sigs| && ts == sigs[i].ins then Some(sigs[i].outs) else None
    case Correct(k, sl, n) =>
      if sl.SliceOf? && 0 <= n && |ts| == k + n && forall j :: k <= j < |ts| ==> ts[j] == sl.elem
      then Some(ts[..k] + [sl]) else None
  }

  /** The type tuple the plan ends with, or None when some step does not fit. */
  function TypeReplay(sigs: seq<Signature>, p: seq<Step>, ts: seq<Ty>): Option<seq<Ty>>
  {
    if p == [] then Some(ts)
    else match TypeReplay(sigs, p[..|p| - 1], ts)
      case None => None
      case Some(t) => TyStep(sigs, p[|p| - 1], t)
  }

  /**
   * One step on value tuples: a call hands the whole tuple to the function; a
   * correction keeps the first k values and replaces the rest by one slice.
   * A correction meeting a tail of another length than fixed at construction
   * fails (None).
   */
  function StepValues(st: Step, apply: (nat, seq<Value>) -> seq<Value>, vs: seq<Value>): Option<seq<Value>>
  {
    match st
    case Call(i, _) => Some(apply(i, vs))
    case Correct(k, sl, n) =>
      if 0 <= n && |vs| == k + n then Some(vs[..k] + [Slice(sl, vs[k..])]) else None
  }

  /** The value tuple replaying the plan produces, each step's output feeding the next. */
  function Replay(p: seq<Step>, apply: (nat, seq<Value>) -> seq<Value>, vs: seq<Value>): (r: Option<seq<Value>>)
    ensures r.None? ==> exists j :: 0 <= j < |p| && p[j].Correct?
  {
    if p == [] then Some(vs)
    else match Replay(p[..|p| - 1], apply, vs)
      case None => None
      case Some(ws) => StepValues(p[|p| - 1], apply, ws)
  }

  /** Each function, given values of its parameter types, returns values of its return types. */
  ghost predicate Respects(sigs: seq<Signature>, apply: (nat, seq<Value>) -> seq<Value>)
  {
    forall i: nat, vs: seq<Value> :: i < |sigs| && TypesOf(vs) == sigs[i].ins ==>
      TypesOf(apply(i, vs)) == sigs[i].outs
  }

  /** Calling the first n functions one inside the other, without any adaptation. */
  function Nest(apply: (nat, seq<Value>) -> seq<Value>, n: nat, vs: seq<Value>): seq<Value>
  {
    if n == 0 then vs else apply(n - 1, Nest(apply, n - 1, vs))
  }

  /** What the consumer `s` receives from a producer that returned `ws`, typed `out`. */
  function Feed(out: seq<Ty>, s: Signature, ws: seq<Value>): seq<Value>
    requires s.variadic ==> s.Fixed() <= |ws|
  {
    if s.variadic && !ExactVariadic(s, out)
    then ws[..s.Fixed()] + [Slice(s.ins[s.Fixed()], ws[s.Fixed()..])]
    else ws
  }
}
