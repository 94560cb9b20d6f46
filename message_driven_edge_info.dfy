/**
 * `Base::MessageDrivenFSA::EdgeInfo`: the record kept for one edge of the
 * message-driven table. Besides the guard (`if`), `set`, `need` and `after`
 * it carries the destination state.
 */
module MessageDrivenEdgeInfo {
  import opened Wrappers
  import opened Values
  import opened Errors
  import opened Guards
  import opened EdgeOptions

  /** The options of one edge; `cond` is the `if` option, `assigns` the `set` option. */
  datatype Options<P> = Options(
    cond: Option<Expr<P>>,
    assigns: SetArg,
    need: NeedArg,
    state: Option<string>,
    after: Option<Callback>)

  datatype OptionsArg<P> = OptionsHash(options: Options<P>) | NotAHash

  datatype EdgeInfo<P> = EdgeInfo(
    cond: Option<Expr<P>>,
    assigns: Option<map<Name, Descriptor>>,
    need: seq<Name>,
    state: string,
    after: Option<Callback>)

  predicate OptionsValid<P>(arg: OptionsArg<P>)
  {
    arg.OptionsHash? && SetValid(arg.options.assigns) && NeedValid(arg.options.need)
  }

  /** `options[:state].to_s`: nil becomes the empty string. */
  function StateName(s: Option<string>): (r: string)
    ensures s.None? ==> r == ""
    ensures s.Some? ==> r == s.value
  {
    if s.Some? then s.value else ""
  }

  /**
   * What the constructor stores from options the schema accepts: the
   * destination as a string, `need` normalised, the rest as given.
   */
  function Stored<P>(o: Options<P>): EdgeInfo<P>
  {
    EdgeInfo(o.cond, StoredSet(o.assigns), NormaliseNeed(o.need), StateName(o.state), o.after)
  }

  /** `EdgeInfo.new(options)`. */
  function New<P>(arg: OptionsArg<P>): (r: Result<EdgeInfo<P>, Error>)
    ensures r.Success? <==> OptionsValid(arg)
    ensures r.Failure? ==> r.error == ValidationError
    ensures r.Success? ==>
      var o := arg.options;
      r.value.cond == o.cond && r.value.after == o.after
      && (o.state.None? ==> r.value.state == "")
      && (o.state.Some? ==> r.value.state == o.state.value)
      && (o.assigns.SetAbsent? ==> r.value.assigns.None?)
      && (o.assigns.SetHash? ==> r.value.assigns == Some(o.assigns.entries))
      && (o.need.NeedAbsent? ==> r.value.need == [])
      && (o.need.NeedOne? ==> r.value.need == [o.need.s])
      && (o.need.NeedList? ==>
            |r.value.need| == |o.need.items|
            && forall i :: 0 <= i < |o.need.items| ==> o.need.items[i] == NeedName(r.value.need[i]))
  {
    if !OptionsValid(arg) then Failure(ValidationError)
    else Success(Stored(arg.options))
  }
}
