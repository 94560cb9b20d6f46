/**
 * The guard lambdas of the edge tables (`check:` and `if:`), as a small
 * expression language. A guard reads attributes of the case snapshot through
 * an `OpenStruct`, combines them with `!`, `&&` and `||`, and calls the
 * predicates the handler mixes into that object (`P`).
 */
module Guards {
  import opened Values

  datatype Expr<P> =
      /** A bare attribute read, e.g. `-> { rejecting_date }`. */
    | Attr(name: Name)
    | Not(operand: Expr<P>)
    | And(left: Expr<P>, right: Expr<P>)
    | Or(left: Expr<P>, right: Expr<P>)
      /** A call of one of the handler's context predicates. */
    | Pred(pred: P)

  /**
   * Ruby evaluation: `!` yields a boolean, `&&` and `||` return one of their
   * operands, an attribute read returns the attribute (nil when absent).
   */
  function Eval<P>(e: Expr<P>, attrs: Snapshot, holds: P -> bool): RubyValue
  {
    match e
    case Attr(n) => FromValue(Lookup(attrs, n))
    case Not(x) => FromBool(!Truthy(Eval(x, attrs, holds)))
    case And(l, r) =>
      var v := Eval(l, attrs, holds);
      if Truthy(v) then Eval(r, attrs, holds) else v
    case Or(l, r) =>
      var v := Eval(l, attrs, holds);
      if Truthy(v) then v else Eval(r, attrs, holds)
    case Pred(p) => FromBool(holds(p))
  }

  /**
   * A guard whose value is always a boolean: a negation, a predicate call, or
   * `&&`/`||` over such guards.
   */
  predicate Boolean<P>(e: Expr<P>)
  {
    match e
    case Attr(_) => false
    case Not(_) => true
    case And(l, r) => Boolean(l) && Boolean(r)
    case Or(l, r) => Boolean(l) && Boolean(r)
    case Pred(_) => true
  }

  /** The boolean reading of a guard: whether its value is truthy. */
  predicate Holds<P>(e: Expr<P>, attrs: Snapshot, holds: P -> bool)
  {
    Truthy(Eval(e, attrs, holds))
  }

  /**
   * A boolean guard evaluates to `true` or `false`, never to nil: for such a guard "returns exactly false" and "is falsy"
   * coincide.
   */
  lemma {:induction false} BooleanGuardYieldsBoolean<P>(e: Expr<P>, attrs: Snapshot, holds: P -> bool)
    requires Boolean(e)
    ensures Eval(e, attrs, holds) == FromBool(Holds(e, attrs, holds))
  {
    match e
    case Not(x) =>
    case And(l, r) =>
      BooleanGuardYieldsBoolean(l, attrs, holds);
      BooleanGuardYieldsBoolean(r, attrs, holds);
    case Or(l, r) =>
      BooleanGuardYieldsBoolean(l, attrs, holds);
      BooleanGuardYieldsBoolean(r, attrs, holds);
    case Pred(p) =>
  }

  /**
   * A bare read of a nil attribute gives nil: falsy, but not `false`. The
   * state-driven engine lets such a guard pass, the message-driven engine
   * does not select its edge.
   */
  lemma NilReadIsFalsyButNotFalse<P>(n: Name, attrs: Snapshot, holds: P -> bool)
    requires Lookup(attrs, n).None?
    ensures Eval(Attr(n), attrs, holds) != RFalse
    ensures !Holds(Attr(n), attrs, holds)
  {
  }
}
