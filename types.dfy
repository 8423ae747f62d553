/**
 * The abstract type language the composition engine works over. Reflection is
 * replaced by a small datatype of types compared by structural equality, a
 * signature per function, and opaque run-time values that know their type.
 */
module Types {

  /** A type: a named base type, or a slice of some element type. */
  datatype Ty = Base(id: nat) | SliceOf(elem: Ty)

  /** The two base types the tests of the package use. */
  const IntTy: Ty := Base(0)
  const StringTy: Ty := Base(1)

  /** A function's parameter types, return types and variadic flag. */
  datatype Sig = Sig(ins: seq<Ty>, outs: seq<Ty>, variadic: bool)
  {
    /** What reflection guarantees of a function type: a variadic function has
        at least one parameter, and its last one is a slice. */
    predicate WellFormed()
    {
      variadic ==> |ins| >= 1 && ins[|ins| - 1].SliceOf?
    }

    /** Number of fixed (non-variadic) parameters. */
    function Fixed(): (k: nat)
      requires WellFormed() && variadic
      ensures k + 1 == |ins|
    {
      |ins| - 1
    }
  }

  /** Signatures as reflection hands them out. */
  type Signature = s: Sig | s.WellFormed() witness Sig([], [], false)

  /**
   * A run-time value. `Slice` is a slice built by the engine itself (the
   * correction step); `Opaque` is any other value, known only by its type.
   */
  datatype Value =
    | Int(i: int)
    | Str(s: string)
    | Slice(ty: Ty, items: seq<Value>)
    | Opaque(ty: Ty, id: nat)

  function TypeOf(v: Value): Ty
  {
    match v
    case Int(_) => IntTy
    case Str(_) => StringTy
    case Slice(t, _) => t
    case Opaque(t, _) => t
  }

  /** The type tuple of a value tuple, position by position. */
  function TypesOf(vs: seq<Value>): (ts: seq<Ty>)
    ensures |ts| == |vs|
    ensures forall j :: 0 <= j < |vs| ==> ts[j] == TypeOf(vs[j])
  {
    seq(|vs|, j requires 0 <= j < |vs| => TypeOf(vs[j]))
  }
}
