/**
 * What the plan built for an accepted chain looks like, and what replaying it
 * does: at the type level it meets every call with exactly the callee's
 * parameter types and ends with the last function's return types; at the value
 * level it nests the calls, collapsing tails into slices where a variadic
 * consumer needs it.
 */
module PlanProps {
  import opened Types
  import opened Plan

  // ---------------------------------------------------------------------------
  // Pair decisions
  // ---------------------------------------------------------------------------

  /**
   * A pair is accepted exactly when it is compatible; an accepted pair needs a
   * correction exactly when the consumer is variadic and the producer's last
   * return is not already the consumer's slice, and the correction then
   * collapses the returns from position k on into that slice.
   */
  lemma PairAccepts(out: seq<Ty>, s: Signature, fnIdx: nat)
    ensures var r := PairCheck(out, s, fnIdx);
      && (r.Ok? <==> Compatible(out, s))
      && (r.Ok? ==> (r.value.None? <==> !s.variadic || ExactVariadic(s, out)))
      && (r.Ok? && r.value.Some? ==>
            s.variadic && r.value.value == Correct(s.Fixed(), s.ins[s.Fixed()], |out| - s.Fixed()))
  {
  }

  /**
   * A refused pair reports the consumer's chain index, and each kind of error
   * says what went wrong: the two lengths for a non-variadic arity mismatch,
   * the first differing position for a type mismatch, and the variadic check's
   * own verdict for a variadic consumer.
   */
  lemma PairErrors(out: seq<Ty>, s: Signature, fnIdx: nat)
    ensures var r := PairCheck(out, s, fnIdx);
      && (r.Err? ==> !r.error.TooFewFunctions? && !r.error.NotAFunction? && r.error.fnIdx == fnIdx)
      && (r.Err? && r.error.ArityMismatch? ==>
            !s.variadic && r.error.outLen == |out| && r.error.inLen == |s.ins| && |out| != |s.ins|)
      && (r.Err? && r.error.TypeMismatch? ==>
            var p := r.error.pos;
            p < Positional(s) && p < |out| && s.ins[p] != out[p]
            && forall j :: 0 <= j < p ==> s.ins[j] == out[j])
      && (r.Err? && (r.error.TooFewReturns? || r.error.VariadicTypeMismatch?) ==>
            s.variadic && VariadicCheck(out, s, fnIdx) == Err(r.error))
  {
  }

  /** What function i contributes to the plan, for each of the three kinds of consumer. */
  lemma SegmentShape(sigs: seq<Signature>, i: nat)
    requires 0 < i < |sigs| && PairOk(sigs, i)
    ensures Segment(sigs, i) == (match PairCheck(sigs[i - 1].outs, sigs[i], i).value
                                 case None => [] case Some(c) => [c]) + [Call(i, sigs[i].variadic)]
    ensures !sigs[i].variadic ==> Segment(sigs, i) == [Call(i, false)]
    ensures sigs[i].variadic && ExactVariadic(sigs[i], sigs[i - 1].outs) ==>
              Segment(sigs, i) == [Call(i, true)]
    ensures sigs[i].variadic && !ExactVariadic(sigs[i], sigs[i - 1].outs) ==>
              var k := sigs[i].Fixed();
              Segment(sigs, i) == [Correct(k, sigs[i].ins[k], |sigs[i - 1].outs| - k), Call(i, true)]
  {
    PairAccepts(sigs[i - 1].outs, sigs[i], i);
  }

  /** FirstDiff is pinned down by its contract: the index a scan stops at is the one it returns. */
  lemma FirstDiffIs(a: seq<Ty>, b: seq<Ty>, j: nat)
    requires j <= |a| <= |b|
    requires forall i :: 0 <= i < j ==> a[i] == b[i]
    requires j < |a| ==> a[j] != b[j]
    ensures FirstDiff(a, b) == j
  {
  }

  /** FirstNot is pinned down by its contract in the same way. */
  lemma FirstNotIs(ts: seq<Ty>, t: Ty, j: nat)
    requires j <= |ts|
    requires forall i :: 0 <= i < j ==> ts[i] == t
    requires j < |ts| ==> ts[j] != t
    ensures FirstNot(ts, t) == j
  {
  }

  /**
   * The boundary of the "too few returns" rule: with k fixed parameters, k
   * returns are still enough (the slice is then empty) when they match, and
   * k - 1 are not.
   */
  lemma VariadicArityBoundary(out: seq<Ty>, s: Signature, fnIdx: nat)
    requires s.variadic
    ensures s.Fixed() > |out| ==> PairCheck(out, s, fnIdx) == Err(TooFewReturns(fnIdx))
    ensures s.Fixed() == |out| && s.ins[..s.Fixed()] == out ==>
              PairCheck(out, s, fnIdx) == Ok(Some(Correct(|out|, s.ins[|out|], 0)))
  {
    var k := s.Fixed();
    if k == |out| && s.ins[..k] == out {
      assert forall j :: 0 <= j < k ==> s.ins[j] == s.ins[..k][j];
      assert Compatible(out, s);
    }
  }

  // ---------------------------------------------------------------------------
  // Plan shape
  // ---------------------------------------------------------------------------

  lemma CallIndicesAppend(p: seq<Step>, q: seq<Step>)
    ensures CallIndices(p + q) == CallIndices(p) + CallIndices(q)
    decreases |q|
  {
    if q == [] {
      assert p + q == p;
    } else {
      var q' := q[..|q| - 1];
      assert (p + q)[..|p + q| - 1] == p + q';
      CallIndicesAppend(p, q');
    }
  }

  lemma CallIndicesOne(st: Step)
    ensures CallIndices([st]) == if st.Call? then [st.idx] else []
  {
    assert [st][..0] == [];
  }

  /** The one or two steps function i contributes, and the function they call. */
  lemma SegmentParts(sigs: seq<Signature>, i: nat)
    requires 0 < i < |sigs|
    ensures var seg := Segment(sigs, i);
      && (|seg| == 1 || |seg| == 2)
      && seg[|seg| - 1] == Call(i, sigs[i].variadic)
      && (|seg| == 2 <==> CorrectionFor(sigs, i) != [])
      && (|seg| == 2 ==> seg[0].Correct? && CorrectionFor(sigs, i) == [seg[0]])
      && CallIndices(seg) == [i]
  {
    var call := Call(i, sigs[i].variadic);
    CallIndicesOne(call);
    if CorrectionFor(sigs, i) != [] {
      var c := CorrectionFor(sigs, i)[0];
      CallIndicesOne(c);
      assert [c, call][..1] == [c];
    }
  }

  /**
   * The plan calls function 0 first and the last function last, and is at
   * most one correction per later function longer than the chain.
   */
  lemma {:induction false} PlanEnds(sigs: seq<Signature>, n: nat)
    requires 1 <= n <= |sigs|
    ensures var p := PlanFor(sigs, n);
      && p[0] == Call(0, sigs[0].variadic)
      && p[|p| - 1] == Call(n - 1, sigs[n - 1].variadic)
      && n <= |p| <= 2 * n - 1
  {
    if n > 1 {
      PlanEnds(sigs, n - 1);
      var q, seg := PlanFor(sigs, n - 1), Segment(sigs, n - 1);
      SegmentParts(sigs, n - 1);
      assert PlanFor(sigs, n) == q + seg;
      assert (q + seg)[0] == q[0];
    }
  }

  lemma CallOrderStep(q: seq<Step>, seg: seq<Step>, n: nat)
    requires 1 <= n && |CallIndices(q)| == n - 1 && CallIndices(seg) == [n - 1]
    requires forall i :: 0 <= i < n - 1 ==> CallIndices(q)[i] == i
    ensures |CallIndices(q + seg)| == n
    ensures forall i :: 0 <= i < n ==> CallIndices(q + seg)[i] == i
  {
    CallIndicesAppend(q, seg);
  }

  /** The plan calls every function exactly once, in chain order. */
  lemma {:induction false} PlanCalls(sigs: seq<Signature>, n: nat)
    requires 1 <= n <= |sigs|
    ensures |CallIndices(PlanFor(sigs, n))| == n
    ensures forall i :: 0 <= i < n ==> CallIndices(PlanFor(sigs, n))[i] == i
  {
    if n == 1 {
      CallIndicesOne(Call(0, sigs[0].variadic));
    } else {
      PlanCalls(sigs, n - 1);
      PlanCallsStep(sigs, n, PlanFor(sigs, n - 1));
    }
  }

  /** Appending function n - 1's segment extends the call order by n - 1. */
  lemma PlanCallsStep(sigs: seq<Signature>, n: nat, q: seq<Step>)
    requires 2 <= n <= |sigs| && q == PlanFor(sigs, n - 1)
    requires |CallIndices(q)| == n - 1
    requires forall i :: 0 <= i < n - 1 ==> CallIndices(q)[i] == i
    ensures |CallIndices(PlanFor(sigs, n))| == n
    ensures forall i :: 0 <= i < n ==> CallIndices(PlanFor(sigs, n))[i] == i
  {
    var seg := Segment(sigs, n - 1);
    assert PlanFor(sigs, n) == q + seg;
    SegmentParts(sigs, n - 1);
    CallOrderStep(q, seg, n);
  }

  /** Among the first n functions, a call is a spread call exactly when its target is variadic. */
  predicate SpreadMatches(sigs: seq<Signature>, p: seq<Step>, n: nat)
    requires n <= |sigs|
  {
    forall j :: 0 <= j < |p| && p[j].Call? ==> p[j].idx < n && p[j].spread == sigs[p[j].idx].variadic
  }

  /** A correction is never first or last, and has a call on each side. */
  predicate CorrectionsBetweenCalls(p: seq<Step>)
  {
    forall j :: 0 <= j < |p| && p[j].Correct? ==> 0 < j < |p| - 1 && p[j - 1].Call? && p[j + 1].Call?
  }

  /** The step before each call of a later function is its pair's correction, if it has one. */
  predicate CorrectionsMatch(sigs: seq<Signature>, p: seq<Step>, n: nat)
    requires n <= |sigs|
  {
    forall j :: 0 < j < |p| && p[j].Call? ==>
      0 < p[j].idx < n
      && (p[j - 1].Correct? <==> CorrectionFor(sigs, p[j].idx) != [])
      && (p[j - 1].Correct? ==> CorrectionFor(sigs, p[j].idx) == [p[j - 1]])
  }

  lemma AppendSpread(sigs: seq<Signature>, q: seq<Step>, i: nat)
    requires 0 < i < |sigs| && SpreadMatches(sigs, q, i)
    ensures SpreadMatches(sigs, q + Segment(sigs, i), i + 1)
  {
    var seg, p := Segment(sigs, i), q + Segment(sigs, i);
    SegmentParts(sigs, i);
    forall j | 0 <= j < |p| && p[j].Call?
      ensures p[j].idx < i + 1 && p[j].spread == sigs[p[j].idx].variadic
    {
      if j < |q| {
        assert p[j] == q[j];
      } else {
        assert p[j] == seg[j - |q|];
      }
    }
  }

  lemma AppendBetweenCalls(q: seq<Step>, seg: seq<Step>)
    requires q != [] && q[|q| - 1].Call? && CorrectionsBetweenCalls(q)
    requires |seg| == 1 || (|seg| == 2 && seg[0].Correct?)
    requires seg[|seg| - 1].Call?
    ensures CorrectionsBetweenCalls(q + seg)
  {
    var p := q + seg;
    forall j | 0 <= j < |p| && p[j].Correct?
      ensures 0 < j < |p| - 1 && p[j - 1].Call? && p[j + 1].Call?
    {
      if j < |q| {
        assert p[j] == q[j] && p[j - 1] == q[j - 1] && p[j + 1] == q[j + 1];
      } else {
        assert p[j] == seg[j - |q|];
        assert j == |q| && p[j - 1] == q[|q| - 1] && p[j + 1] == seg[1];
      }
    }
  }

  lemma AppendMatch(sigs: seq<Signature>, q: seq<Step>, i: nat)
    requires 0 < i < |sigs| && q != [] && q[|q| - 1].Call? && CorrectionsMatch(sigs, q, i)
    ensures CorrectionsMatch(sigs, q + Segment(sigs, i), i + 1)
  {
    var seg, p := Segment(sigs, i), q + Segment(sigs, i);
    SegmentParts(sigs, i);
    forall j | 0 < j < |p| && p[j].Call?
      ensures 0 < p[j].idx < i + 1
      ensures p[j - 1].Correct? <==> CorrectionFor(sigs, p[j].idx) != []
      ensures p[j - 1].Correct? ==> CorrectionFor(sigs, p[j].idx) == [p[j - 1]]
    {
      if j < |q| {
        assert p[j] == q[j] && p[j - 1] == q[j - 1];
      } else {
        assert p[j] == seg[j - |q|];
        assert j == |p| - 1;
        if |seg| == 1 {
          assert p[j - 1] == q[|q| - 1];
        } else {
          assert p[j - 1] == seg[0];
        }
      }
    }
  }

  /** Every call in the plan is a spread call exactly when its target is variadic. */
  lemma {:induction false} PlanSpread(sigs: seq<Signature>, n: nat)
    requires 1 <= n <= |sigs|
    ensures SpreadMatches(sigs, PlanFor(sigs, n), n)
  {
    if n > 1 {
      PlanSpread(sigs, n - 1);
      AppendSpread(sigs, PlanFor(sigs, n - 1), n - 1);
    }
  }

  /** A correction is never the first step and always sits between two calls. */
  lemma {:induction false} PlanCorrectionPlaces(sigs: seq<Signature>, n: nat)
    requires 1 <= n <= |sigs|
    ensures CorrectionsBetweenCalls(PlanFor(sigs, n))
  {
    if n > 1 {
      var q, seg := PlanFor(sigs, n - 1), Segment(sigs, n - 1);
      assert PlanFor(sigs, n) == q + seg;
      PlanCorrectionPlaces(sigs, n - 1);
      PlanEnds(sigs, n - 1);
      SegmentParts(sigs, n - 1);
      AppendBetweenCalls(q, seg);
    }
  }

  /**
   * The step before the call of function i (i > 0) is a correction exactly
   * when its pair needs one, and then it is that one.
   */
  lemma {:induction false} PlanCorrections(sigs: seq<Signature>, n: nat)
    requires 1 <= n <= |sigs|
    ensures CorrectionsMatch(sigs, PlanFor(sigs, n), n)
  {
    if n > 1 {
      PlanCorrections(sigs, n - 1);
      PlanEnds(sigs, n - 1);
      AppendMatch(sigs, PlanFor(sigs, n - 1), n - 1);
    }
  }

  // ---------------------------------------------------------------------------
  // Type-level replay
  // ---------------------------------------------------------------------------

  function Then(o: Option<seq<Ty>>, sigs: seq<Signature>, q: seq<Step>): Option<seq<Ty>>
  {
    match o
    case None => None
    case Some(t) => TypeReplay(sigs, q, t)
  }

  /** Replaying p + q is replaying p, then q on what p produced. */
  lemma {:induction false} TypeReplayAppend(sigs: seq<Signature>, p: seq<Step>, q: seq<Step>, ts: seq<Ty>)
    ensures TypeReplay(sigs, p + q, ts) == Then(TypeReplay(sigs, p, ts), sigs, q)
    decreases |q|
  {
    if q == [] {
      assert p + q == p;
    } else {
      assert (p + q)[..|p + q| - 1] == p + q[..|q| - 1];
      TypeReplayAppend(sigs, p, q[..|q| - 1], ts);
    }
  }

  lemma TypeReplayOne(sigs: seq<Signature>, st: Step, ts: seq<Ty>)
    ensures TypeReplay(sigs, [st], ts) == TyStep(sigs, st, ts)
  {
    assert [st][..0] == [];
  }

  lemma TypeReplayTwo(sigs: seq<Signature>, a: Step, b: Step, ts: seq<Ty>)
    ensures TypeReplay(sigs, [a, b], ts) ==
            match TyStep(sigs, a, ts) case None => None case Some(t) => TyStep(sigs, b, t)
  {
    assert [a, b][..1] == [a];
    TypeReplayOne(sigs, a, ts);
  }

  /** Without a correction, a compatible producer returns exactly the consumer's parameter types. */
  lemma CompatibleDirect(out: seq<Ty>, s: Signature)
    requires Compatible(out, s) && (!s.variadic || ExactVariadic(s, out))
    ensures out == s.ins
  {
  }

  /** With a correction, collapsing the compatible producer's tail gives the consumer's parameter types. */
  lemma CompatibleCollapse(sigs: seq<Signature>, out: seq<Ty>, s: Signature)
    requires Compatible(out, s) && s.variadic && !ExactVariadic(s, out)
    ensures TyStep(sigs, Correct(s.Fixed(), s.ins[s.Fixed()], |out| - s.Fixed()), out) == Some(s.ins)
  {
    var k := s.Fixed();
    assert out[..k] + [s.ins[k]] == s.ins;
  }

  /** The steps of function i take function i - 1's return types to function i's. */
  lemma SegmentTypes(sigs: seq<Signature>, i: nat)
    requires 0 < i < |sigs| && PairOk(sigs, i)
    ensures TypeReplay(sigs, Segment(sigs, i), sigs[i - 1].outs) == Some(sigs[i].outs)
  {
    var out, s := sigs[i - 1].outs, sigs[i];
    var call := Call(i, s.variadic);
    PairAccepts(out, s, i);
    if !s.variadic || ExactVariadic(s, out) {
      CompatibleDirect(out, s);
      assert Segment(sigs, i) == [call];
      TypeReplayOne(sigs, call, out);
    } else {
      var c := Correct(s.Fixed(), s.ins[s.Fixed()], |out| - s.Fixed());
      CompatibleCollapse(sigs, out, s);
      assert Segment(sigs, i) == [c, call];
      TypeReplayTwo(sigs, c, call, out);
    }
  }

  /**
   * The central invariant: replaying the plan of an accepted chain at the type
   * level, from the first function's parameter types, succeeds (so every call
   * step meets exactly its callee's parameter types) and ends with the return
   * types of function n - 1.
   */
  lemma {:induction false} PlanTypes(sigs: seq<Signature>, n: nat)
    requires 1 <= n <= |sigs| && Chains(sigs, n)
    ensures TypeReplay(sigs, PlanFor(sigs, n), sigs[0].ins) == Some(sigs[n - 1].outs)
  {
    if n == 1 {
      TypeReplayOne(sigs, Call(0, sigs[0].variadic), sigs[0].ins);
    } else {
      assert Chains(sigs, n - 1) && PairOk(sigs, n - 1);
      PlanTypes(sigs, n - 1);
      PlanTypesStep(sigs, n);
    }
  }

  /** Appending function n - 1's segment carries the type replay from its producer's returns to its own. */
  lemma PlanTypesStep(sigs: seq<Signature>, n: nat)
    requires 2 <= n <= |sigs| && PairOk(sigs, n - 1)
    requires TypeReplay(sigs, PlanFor(sigs, n - 1), sigs[0].ins) == Some(sigs[n - 2].outs)
    ensures TypeReplay(sigs, PlanFor(sigs, n), sigs[0].ins) == Some(sigs[n - 1].outs)
  {
    var q, seg := PlanFor(sigs, n - 1), Segment(sigs, n - 1);
    assert PlanFor(sigs, n) == q + seg;
    SegmentTypes(sigs, n - 1);
    TypeReplayThrough(sigs, q, seg, sigs[0].ins, sigs[n - 2].outs, sigs[n - 1].outs);
  }

  /** Replays that succeed one after the other succeed on the concatenated plan. */
  lemma TypeReplayThrough(sigs: seq<Signature>, p: seq<Step>, q: seq<Step>, ts: seq<Ty>, mid: seq<Ty>, fin: seq<Ty>)
    requires TypeReplay(sigs, p, ts) == Some(mid) && TypeReplay(sigs, q, mid) == Some(fin)
    ensures TypeReplay(sigs, p + q, ts) == Some(fin)
  {
    TypeReplayAppend(sigs, p, q, ts);
  }

  /** A replay that succeeds succeeds on every prefix. */
  lemma {:induction false} TypeReplayPrefix(sigs: seq<Signature>, p: seq<Step>, m: nat, ts: seq<Ty>)
    requires m <= |p| && TypeReplay(sigs, p, ts).Some?
    ensures TypeReplay(sigs, p[..m], ts).Some?
    decreases |p| - m
  {
    if m < |p| {
      TypeReplayPrefix(sigs, p, m + 1, ts);
      assert p[..m + 1][..m] == p[..m];
    } else {
      assert p[..m] == p;
    }
  }

  /** In a replay that succeeds, each call step is reached with exactly its callee's parameter types. */
  lemma CallsMeetParameters(sigs: seq<Signature>, p: seq<Step>, ts: seq<Ty>, j: nat)
    requires j < |p| && p[j].Call? && TypeReplay(sigs, p, ts).Some?
    ensures p[j].idx < |sigs| && TypeReplay(sigs, p[..j], ts) == Some(sigs[p[j].idx].ins)
  {
    TypeReplayPrefix(sigs, p, j + 1, ts);
    assert p[..j + 1][..j] == p[..j];
  }

  /**
   * In the plan of an accepted chain, replayed from the first function's
   * parameter types, every call step is reached with exactly its callee's
   * parameter types.
   */
  lemma PlanCallsTyped(sigs: seq<Signature>, j: nat)
    requires 1 <= |sigs| && Chains(sigs, |sigs|)
    requires j < |PlanFor(sigs, |sigs|)| && PlanFor(sigs, |sigs|)[j].Call?
    ensures var p := PlanFor(sigs, |sigs|);
      p[j].idx < |sigs| && TypeReplay(sigs, p[..j], sigs[0].ins) == Some(sigs[p[j].idx].ins)
  {
    PlanTypes(sigs, |sigs|);
    CallsMeetParameters(sigs, PlanFor(sigs, |sigs|), sigs[0].ins, j);
  }

  // ---------------------------------------------------------------------------
  // Value-level replay
  // ---------------------------------------------------------------------------

  function ThenValues(o: Option<seq<Value>>, q: seq<Step>, apply: (nat, seq<Value>) -> seq<Value>): Option<seq<Value>>
  {
    match o
    case None => None
    case Some(vs) => Replay(q, apply, vs)
  }

  /** Running p + q is running p, then q on what p produced. */
  lemma {:induction false} ReplayAppend(p: seq<Step>, q: seq<Step>, apply: (nat, seq<Value>) -> seq<Value>, vs: seq<Value>)
    ensures Replay(p + q, apply, vs) == ThenValues(Replay(p, apply, vs), q, apply)
    decreases |q|
  {
    if q == [] {
      assert p + q == p;
    } else {
      assert (p + q)[..|p + q| - 1] == p + q[..|q| - 1];
      ReplayAppend(p, q[..|q| - 1], apply, vs);
    }
  }

  /** Once a prefix of the plan fails, the whole plan fails. */
  lemma {:induction false} ReplayStuck(p: seq<Step>, m: nat, apply: (nat, seq<Value>) -> seq<Value>, vs: seq<Value>)
    requires m <= |p| && Replay(p[..m], apply, vs) == None
    ensures Replay(p, apply, vs) == None
    decreases |p| - m
  {
    if m < |p| {
      assert p[..m + 1][..m] == p[..m];
      ReplayStuck(p, m + 1, apply, vs);
    } else {
      assert p[..m] == p;
    }
  }

  /** A correction step turns a value tuple into one typed as its type-level step says. */
  lemma CorrectionTyped(sigs: seq<Signature>, st: Step, apply: (nat, seq<Value>) -> seq<Value>, vs: seq<Value>)
    requires st.Correct? && TyStep(sigs, st, TypesOf(vs)).Some?
    ensures StepValues(st, apply, vs).Some?
    ensures TypesOf(StepValues(st, apply, vs).value) == TyStep(sigs, st, TypesOf(vs)).value
  {
    var ws := StepValues(st, apply, vs).value;
    assert ws == vs[..st.k] + [Slice(st.sliceTy, vs[st.k..])];
    assert TypesOf(ws) == TypesOf(vs)[..st.k] + [st.sliceTy];
  }

  /**
   * With functions that keep to their signatures, a plan whose type-level
   * replay succeeds also runs on values, and the value tuple it produces has
   * the types the type-level replay predicts.
   */
  lemma {:induction false} ReplayTyped(sigs: seq<Signature>, p: seq<Step>, apply: (nat, seq<Value>) -> seq<Value>, vs: seq<Value>)
    requires Respects(sigs, apply)
    requires TypeReplay(sigs, p, TypesOf(vs)).Some?
    ensures Replay(p, apply, vs).Some?
    ensures TypesOf(Replay(p, apply, vs).value) == TypeReplay(sigs, p, TypesOf(vs)).value
  {
    if p != [] {
      var p', st := p[..|p| - 1], p[|p| - 1];
      ReplayTyped(sigs, p', apply, vs);
      var ws := Replay(p', apply, vs).value;
      if st.Correct? {
        CorrectionTyped(sigs, st, apply, ws);
      }
    }
  }

  /**
   * The type contract of the composed callable: given values of the first
   * function's parameter types, running the plan of an accepted chain succeeds
   * and returns values of the last function's return types.
   */
  lemma ComposedTyped(sigs: seq<Signature>, apply: (nat, seq<Value>) -> seq<Value>, vs: seq<Value>)
    requires 1 <= |sigs| && Chains(sigs, |sigs|)
    requires Respects(sigs, apply) && TypesOf(vs) == sigs[0].ins
    ensures Replay(PlanFor(sigs, |sigs|), apply, vs).Some?
    ensures TypesOf(Replay(PlanFor(sigs, |sigs|), apply, vs).value) == sigs[|sigs| - 1].outs
  {
    PlanTypes(sigs, |sigs|);
    ReplayTyped(sigs, PlanFor(sigs, |sigs|), apply, vs);
  }

  lemma ReplayOne(st: Step, apply: (nat, seq<Value>) -> seq<Value>, vs: seq<Value>)
    ensures Replay([st], apply, vs) == StepValues(st, apply, vs)
  {
    assert [st][..0] == [];
  }

  lemma ReplayTwo(a: Step, b: Step, apply: (nat, seq<Value>) -> seq<Value>, vs: seq<Value>)
    ensures Replay([a, b], apply, vs) ==
            match StepValues(a, apply, vs) case None => None case Some(ws) => StepValues(b, apply, ws)
  {
    assert [a, b][..1] == [a];
    ReplayOne(a, apply, vs);
  }

  /**
   * Running the plan up to function n hands function n exactly what its
   * producer returned, except that for a variadic consumer outside the exact
   * match the values from position k on arrive as one slice, in their order.
   */
  lemma ReplayFeeds(sigs: seq<Signature>, n: nat, apply: (nat, seq<Value>) -> seq<Value>, vs: seq<Value>, ws: seq<Value>)
    requires 1 <= n < |sigs| && PairOk(sigs, n)
    requires Replay(PlanFor(sigs, n), apply, vs) == Some(ws)
    requires |ws| == |sigs[n - 1].outs|
    ensures sigs[n].variadic ==> sigs[n].Fixed() <= |ws|
    ensures Replay(PlanFor(sigs, n + 1), apply, vs) == Some(apply(n, Feed(sigs[n - 1].outs, sigs[n], ws)))
  {
    PairAccepts(sigs[n - 1].outs, sigs[n], n);
    assert PlanFor(sigs, n + 1) == PlanFor(sigs, n) + Segment(sigs, n);
    ReplayAppend(PlanFor(sigs, n), Segment(sigs, n), apply, vs);
    SegmentFeeds(sigs, n, apply, ws);
  }

  /** Function n's segment, run on its producer's values, calls it on what Feed hands over. */
  lemma SegmentFeeds(sigs: seq<Signature>, n: nat, apply: (nat, seq<Value>) -> seq<Value>, ws: seq<Value>)
    requires 0 < n < |sigs|
    requires sigs[n].variadic ==> sigs[n].Fixed() <= |ws|
    requires |ws| == |sigs[n - 1].outs|
    ensures Replay(Segment(sigs, n), apply, ws) == Some(apply(n, Feed(sigs[n - 1].outs, sigs[n], ws)))
  {
    var out, s := sigs[n - 1].outs, sigs[n];
    var call := Call(n, s.variadic);
    if !s.variadic || ExactVariadic(s, out) {
      assert Segment(sigs, n) == [call];
      ReplayOne(call, apply, ws);
    } else {
      var c := Correct(s.Fixed(), s.ins[s.Fixed()], |out| - s.Fixed());
      assert Segment(sigs, n) == [c, call];
      ReplayTwo(c, call, apply, ws);
    }
  }

  /**
   * A chain of two functions runs as: call the first, hand its returns over as
   * Feed prescribes, call the second.
   */
  lemma ReplayPair(sigs: seq<Signature>, apply: (nat, seq<Value>) -> seq<Value>, vs: seq<Value>)
    requires |sigs| == 2 && PairOk(sigs, 1)
    requires |apply(0, vs)| == |sigs[0].outs|
    ensures sigs[1].variadic ==> sigs[1].Fixed() <= |apply(0, vs)|
    ensures Replay(PlanFor(sigs, 2), apply, vs) == Some(apply(1, Feed(sigs[0].outs, sigs[1], apply(0, vs))))
  {
    ReplayOne(Call(0, sigs[0].variadic), apply, vs);
    ReplayFeeds(sigs, 1, apply, vs, apply(0, vs));
  }

  /**
   * When no pair of the chain needs a correction (no variadic consumer, or only
   * exact variadic pass-throughs), the composed callable is plain nesting.
   */
  lemma {:induction false} ReplayNests(sigs: seq<Signature>, n: nat, apply: (nat, seq<Value>) -> seq<Value>, vs: seq<Value>)
    requires 1 <= n <= |sigs|
    requires forall i :: 0 < i < n ==> CorrectionFor(sigs, i) == []
    ensures Replay(PlanFor(sigs, n), apply, vs) == Some(Nest(apply, n, vs))
  {
    if n == 1 {
      assert [Call(0, sigs[0].variadic)][..0] == [];
    } else {
      var q, call := PlanFor(sigs, n - 1), Call(n - 1, sigs[n - 1].variadic);
      assert CorrectionFor(sigs, n - 1) == [];
      assert PlanFor(sigs, n) == q + [call];
      ReplayNests(sigs, n - 1, apply, vs);
      ReplayAppend(q, [call], apply, vs);
      ReplayOne(call, apply, Nest(apply, n - 1, vs));
    }
  }
}
