/**
 * `Base::StateDrivenFSA::EdgeInfo`: the record kept for one edge of the
 * state-driven table. The constructor validates the options against the
 * schema and then only stores them; the record has readers only.
 */
module StateDrivenEdgeInfo {
  import opened Wrappers
  import opened Values
  import opened Errors
  import opened Guards
  import opened EdgeOptions

  /** The options of one edge; `assigns` is the `set` option. */
  datatype Options<P> = Options(
    check: Option<Expr<P>>,
    raise: Option<ErrorClass>,
    assigns: SetArg,
    need: NeedArg,
    after: Option<Callback>)

  /** The constructor's argument: a Hash of options, or any other object. */
  datatype OptionsArg<P> = OptionsHash(options: Options<P>) | NotAHash

  datatype EdgeInfo<P> = EdgeInfo(
    check: Option<Expr<P>>,
    raise: Option<ErrorClass>,
    assigns: Option<map<Name, Descriptor>>,
    need: seq<Name>,
    after: Option<Callback>)

  predicate OptionsValid<P>(arg: OptionsArg<P>)
  {
    arg.OptionsHash? && SetValid(arg.options.assigns) && NeedValid(arg.options.need)
  }

  /**
   * What the constructor stores from options the schema accepts: `need`
   * normalised, the rest as given (`New` below only calls it on those).
   */
  function Stored<P>(o: Options<P>): EdgeInfo<P>
  {
    EdgeInfo(o.check, o.raise, StoredSet(o.assigns), NormaliseNeed(o.need), o.after)
  }

  /** `EdgeInfo.new(options)`. */
  function New<P>(arg: OptionsArg<P>): (r: Result<EdgeInfo<P>, Error>)
    ensures r.Success? <==> OptionsValid(arg)
    ensures r.Failure? ==> r.error == ValidationError
    ensures r.Success? ==>
      var o := arg.options;
      r.value.check == o.check && r.value.raise == o.raise && r.value.after == o.after
      && (o.assigns.SetAbsent? ==> r.value.assigns.None?)
      && (o.assigns.SetHash? ==> r.value.assigns == Some(o.assigns.entries))
      && (forall n :: n in r.value.need <==>
            (o.need.NeedOne? && n == o.need.s)
            || (o.need.NeedList? && exists i :: 0 <= i < |o.need.items| && o.need.items[i] == NeedName(n)))
      && (o.need.NeedAbsent? ==> r.value.need == [])
      && (o.need.NeedOne? ==> r.value.need == [o.need.s])
      && (o.need.NeedList? ==>
            |r.value.need| == |o.need.items|
            && forall i :: 0 <= i < |o.need.items| ==> o.need.items[i] == NeedName(r.value.need[i]))
  {
    if !OptionsValid(arg) then Failure(ValidationError)
    else
      Success(Stored(arg.options))
  }
}
