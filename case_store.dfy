/**
 * The case store (`CaseCore::Actions::Cases`): case records, and per case a
 * map from attribute name to value. `update` deletes the named attributes of
 * the listed cases and imports the new values; the queries only read.
 */
module CaseStore {
  import opened Wrappers
  import opened Values
  import opened Errors

  datatype CaseRecord = CaseRecord(id: CaseId, caseType: string)

  /** Attribute values of every case. */
  type Attributes = map<CaseId, Snapshot>

  function AttributesOf(store: Attributes, id: CaseId): Snapshot
  {
    if id in store then store[id] else map[]
  }

  /**
   * The attributes after `update(id: ids, **changes)`: for each listed case
   * in turn, the named attributes are replaced by the new values.
   */
  function Updated(store: Attributes, ids: seq<CaseId>, changes: map<Name, Value>): Attributes
  {
    if ids == [] then store
    else
      var before := Updated(store, ids[..|ids| - 1], changes);
      var id := ids[|ids| - 1];
      before[id := AttributesOf(before, id) + changes]
  }

  /**
   * After an update every listed case holds exactly the new value of each
   * updated name, keeps its other attributes, and every other case is left
   * as it was.
   */
  lemma UpdateEffect(store: Attributes, ids: seq<CaseId>, changes: map<Name, Value>)
    ensures forall id, n :: id in ids && n in changes ==>
      n in AttributesOf(Updated(store, ids, changes), id)
      && AttributesOf(Updated(store, ids, changes), id)[n] == changes[n]
    ensures forall id, n :: id in ids && n !in changes ==>
      Lookup(AttributesOf(Updated(store, ids, changes), id), n) == Lookup(AttributesOf(store, id), n)
    ensures forall id :: id !in ids ==> AttributesOf(Updated(store, ids, changes), id) == AttributesOf(store, id)
  {
    UpdateEffectAt(store, ids, changes);
  }

  lemma {:induction false} UpdateEffectAt(store: Attributes, ids: seq<CaseId>, changes: map<Name, Value>)
    ensures forall id :: id in ids ==> AttributesOf(Updated(store, ids, changes), id) == AttributesOf(store, id) + changes
    ensures forall id :: id !in ids ==> AttributesOf(Updated(store, ids, changes), id) == AttributesOf(store, id)
  {
    if ids != [] {
      var prefix := ids[..|ids| - 1];
      UpdateEffectAt(store, prefix, changes);
      forall id | id in ids
        ensures AttributesOf(Updated(store, ids, changes), id) == AttributesOf(store, id) + changes
      {
        if id != ids[|ids| - 1] {
          assert id in prefix;
        } else if id in prefix {
          var a := AttributesOf(store, id);
          assert a + changes + changes == a + changes;
        }
      }
    }
  }

  /** An update with an empty id list changes nothing. */
  lemma UpdateNoIds(store: Attributes, changes: map<Name, Value>)
    ensures Updated(store, [], changes) == store
  {
  }

  /** `show_attributes(id:, names:)`: the case's attributes, restricted to `names` when given. */
  function ShowAttributes(store: Attributes, id: CaseId, names: Option<set<Name>>): (r: Snapshot)
    ensures forall n :: n in r <==> n in AttributesOf(store, id) && (names.None? || n in names.value)
    ensures forall n :: n in r ==> r[n] == AttributesOf(store, id)[n]
  {
    var attrs := AttributesOf(store, id);
    if names.None? then attrs else map n | n in attrs && n in names.value :: attrs[n]
  }

  /** `Case.where(id:).first`. */
  function FindCase(records: seq<CaseRecord>, id: CaseId): (r: Option<CaseRecord>)
    ensures r.Some? ==> r.value in records && r.value.id == id
    ensures r.None? ==> forall i :: 0 <= i < |records| ==> records[i].id != id
  {
    if records == [] then None
    else if records[0].id == id then Some(records[0])
    else FindCase(records[1..], id)
  }

  /** The case has a `planned_rejecting_date` attribute that is nil. */
  predicate NilRejectingDate(store: Attributes, id: CaseId)
  {
    "planned_rejecting_date" in AttributesOf(store, id)
    && AttributesOf(store, id)["planned_rejecting_date"].None?
  }

  /** The case is in `issuance` and its `planned_rejecting_date` is at most `bound` as a string. */
  predicate IssuanceExpired(store: Attributes, id: CaseId, bound: string)
  {
    Lookup(AttributesOf(store, id), "state") == Some("issuance")
    && var d := Lookup(AttributesOf(store, id), "planned_rejecting_date");
       d.Some? && StrLe(d.value, bound)
  }

  /** An entry of `index_issuance`: the id and the requested `close_on_reject` field. */
  datatype IndexEntry = IndexEntry(id: CaseId, closeOnReject: Value)

  function IssuanceEntries(records: seq<CaseRecord>, store: Attributes, bound: string): (r: seq<IndexEntry>)
    ensures forall e :: e in r ==>
      IssuanceExpired(store, e.id, bound) && e.closeOnReject == Lookup(AttributesOf(store, e.id), "close_on_reject")
    ensures forall i :: 0 <= i < |records| && IssuanceExpired(store, records[i].id, bound) ==>
      IndexEntry(records[i].id, Lookup(AttributesOf(store, records[i].id), "close_on_reject")) in r
  {
    if records == [] then []
    else
      var id := records[0].id;
      var rest := IssuanceEntries(records[1..], store, bound);
      if IssuanceExpired(store, id, bound)
      then [IndexEntry(id, Lookup(AttributesOf(store, id), "close_on_reject"))] + rest
      else rest
  }

  /**
   * `index_issuance`: the cases in state `issuance` whose
   * `planned_rejecting_date` is at most `bound` in string order. Comparing a
   * nil date raises, as `nil <= bound` does.
   */
  function IndexIssuance(records: seq<CaseRecord>, store: Attributes, bound: string): (r: Result<seq<IndexEntry>, Error>)
    ensures r.Failure? <==> exists i :: 0 <= i < |records| && NilRejectingDate(store, records[i].id)
    ensures r.Success? ==> forall e :: e in r.value ==>
      Lookup(AttributesOf(store, e.id), "state") == Some("issuance")
      && Lookup(AttributesOf(store, e.id), "planned_rejecting_date").Some?
      && StrLe(Lookup(AttributesOf(store, e.id), "planned_rejecting_date").value, bound)
    ensures r.Success? ==> forall i :: 0 <= i < |records| && IssuanceExpired(store, records[i].id, bound) ==>
      IndexEntry(records[i].id, Lookup(AttributesOf(store, records[i].id), "close_on_reject")) in r.value
  {
    if exists i :: 0 <= i < |records| && NilRejectingDate(store, records[i].id)
    then Failure(NoMethod("planned_rejecting_date"))
    else Success(IssuanceEntries(records, store, bound))
  }

  /** The attributes `index_error` reports for one case. */
  function ErrorEntry(store: Attributes, id: CaseId): (r: Snapshot)
    ensures "id" in r && r["id"] == Some(id)
    ensures forall n :: n in r ==> n == "id" || n == "special_data" || n == "service_id"
    ensures forall n :: (n == "special_data" || n == "service_id") && n in AttributesOf(store, id) ==>
      n in r && r[n] == AttributesOf(store, id)[n]
  {
    var attrs := AttributesOf(store, id);
    (map n | n in attrs && (n == "special_data" || n == "service_id") :: attrs[n])["id" := Some(id)]
  }

  /**
   * `index` with the Repeater's parameters (`index_error`): every case in
   * state `error`, with its `special_data`, `service_id` and `id`.
   */
  function IndexError(records: seq<CaseRecord>, store: Attributes): (r: seq<(CaseId, Snapshot)>)
    ensures forall i :: 0 <= i < |r| ==>
      Lookup(AttributesOf(store, r[i].0), "state") == Some("error") && r[i].1 == ErrorEntry(store, r[i].0)
    ensures forall i :: 0 <= i < |records| && Lookup(AttributesOf(store, records[i].id), "state") == Some("error") ==>
      (records[i].id, ErrorEntry(store, records[i].id)) in r
  {
    if records == [] then []
    else
      var id := records[0].id;
      var rest := IndexError(records[1..], store);
      if Lookup(AttributesOf(store, id), "state") == Some("error")
      then [(id, ErrorEntry(store, id))] + rest
      else rest
  }

  class Cases {
    var records: seq<CaseRecord>
    var attributes: Attributes

    constructor (records: seq<CaseRecord>, attributes: Attributes)
      ensures this.records == records && this.attributes == attributes
    {
      this.records := records;
      this.attributes := attributes;
    }

    /** `Cases.update(id: ids, **changes)`, one listed case at a time. */
    method Update(ids: seq<CaseId>, changes: map<Name, Value>)
      modifies this
      ensures records == old(records)
      ensures attributes == Updated(old(attributes), ids, changes)
    {
      var i := 0;
      while i < |ids|
        invariant 0 <= i <= |ids|
        invariant records == old(records)
        invariant attributes == Updated(old(attributes), ids[..i], changes)
      {
        assert ids[..i + 1][..i] == ids[..i];
        attributes := attributes[ids[i] := AttributesOf(attributes, ids[i]) + changes];
        i := i + 1;
      }
      assert ids[..i] == ids;
    }
  }
}
