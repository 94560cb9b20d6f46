/**
 * The options hash both `EdgeInfo` classes accept, and the part of its JSON
 * schema (`OPTIONS_SCHEMA`) the two share: `set` must be an object whose
 * values are null or strings, `need` a string or an array of strings.
 */
module EdgeOptions {
  import opened Wrappers
  import opened Values

  /** A value of the `set` option: what to write into one attribute. */
  datatype Descriptor =
    | DNil
    | DStr(s: string)
    | DSym(s: string)
      /** Any other object, written by its string form; the schema refuses it. */
    | DOther(repr: string)

  datatype SetArg =
    | SetAbsent
    | SetHash(entries: map<Name, Descriptor>)
    | SetNotHash

  /** An element of a `need` array: a string or symbol, or anything else. */
  datatype NeedItem = NeedName(s: string) | NeedNonString

  datatype NeedArg =
    | NeedAbsent
      /** A single string or symbol. */
    | NeedOne(s: string)
    | NeedList(items: seq<NeedItem>)
      /** Any other object. */
    | NeedOther

  /** The `after` callbacks the two edge tables use. */
  datatype Callback = RequestCreate | RequestRepeat

  /** Schema rule for `set`; symbols are serialised as strings. */
  predicate SetValid(s: SetArg)
  {
    match s
    case SetAbsent => true
    case SetHash(m) => forall k :: k in m ==> !m[k].DOther?
    case SetNotHash => false
  }

  /** Schema rule for `need`. */
  predicate NeedValid(n: NeedArg)
  {
    match n
    case NeedAbsent => true
    case NeedOne(_) => true
    case NeedList(items) => forall i :: 0 <= i < |items| ==> items[i].NeedName?
    case NeedOther => false
  }

  /** The names of a `need` array, in order; the schema admits only names. */
  function ItemNames(items: seq<NeedItem>): (r: seq<Name>)
    ensures forall n :: n in r <==> NeedName(n) in items
    ensures (forall i :: 0 <= i < |items| ==> items[i].NeedName?) ==>
      |r| == |items| && forall i :: 0 <= i < |items| ==> items[i] == NeedName(r[i])
  {
    if items == [] then []
    else (if items[0].NeedName? then [items[0].s] else []) + ItemNames(items[1..])
  }

  /** `Array(options[:need]).map(&:to_s)`. */
  function NormaliseNeed(n: NeedArg): (r: seq<Name>)
    ensures n.NeedAbsent? || n.NeedOther? ==> r == []
    ensures n.NeedOne? ==> r == [n.s]
    ensures n.NeedList? ==> forall x :: x in r <==> NeedName(x) in n.items
    ensures n.NeedList? && NeedValid(n) ==>
      |r| == |n.items| && forall i :: 0 <= i < |n.items| ==> n.items[i] == NeedName(r[i])
  {
    match n
    case NeedAbsent => []
    case NeedOne(s) => [s]
    case NeedList(items) => ItemNames(items)
    case NeedOther => []
  }

  /** The `set` option as stored: `None` when it was not given. */
  function StoredSet(s: SetArg): Option<map<Name, Descriptor>>
  {
    if s.SetHash? then Some(s.entries) else None
  }
}
