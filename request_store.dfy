/**
 * The request store (`CaseCore::Actions::Requests`): request records, each
 * tied to a case, and a shared list of request attribute records.
 */
module RequestStore {
  import opened Wrappers
  import opened Values

  datatype RequestRecord = RequestRecord(id: nat, caseId: CaseId)

  datatype RequestAttribute = RequestAttribute(requestId: nat, name: Name, value: Value)

  /** The attribute records made for `fields`, skipping `id`, `case_id` and `created_at`. */
  function AttributeRecords(requestId: nat, fields: seq<(Name, Value)>): (r: seq<RequestAttribute>)
    ensures forall a :: a in r ==> a.requestId == requestId
    ensures forall a :: a in r <==>
      a.requestId == requestId && (a.name, a.value) in fields
      && a.name != "id" && a.name != "case_id" && a.name != "created_at"
  {
    if fields == [] then []
    else
      var (n, v) := fields[0];
      var rest := AttributeRecords(requestId, fields[1..]);
      if n == "id" || n == "case_id" || n == "created_at" then rest
      else [RequestAttribute(requestId, n, v)] + rest
  }

  /** The attribute list with every record of one request deleted. */
  function Without(attrs: seq<RequestAttribute>, requestId: nat): (r: seq<RequestAttribute>)
    ensures forall a :: a in r <==> a in attrs && a.requestId != requestId
  {
    if attrs == [] then []
    else if attrs[0].requestId == requestId then Without(attrs[1..], requestId)
    else [attrs[0]] + Without(attrs[1..], requestId)
  }

  function FindRecord(records: seq<RequestRecord>, id: nat): (r: Option<RequestRecord>)
    ensures r.Some? ==> r.value in records && r.value.id == id
    ensures r.None? ==> forall i :: 0 <= i < |records| ==> records[i].id != id
  {
    if records == [] then None
    else if records[0].id == id then Some(records[0])
    else FindRecord(records[1..], id)
  }

  /** The first attribute record with the given name and value. */
  function FirstAttribute(attrs: seq<RequestAttribute>, name: Name, value: string): (r: Option<nat>)
    ensures r.Some? ==>
      r.value < |attrs| && attrs[r.value].name == name && attrs[r.value].value == Some(value)
      && forall j :: 0 <= j < r.value ==> !(attrs[j].name == name && attrs[j].value == Some(value))
    ensures r.None? ==> forall j :: 0 <= j < |attrs| ==> !(attrs[j].name == name && attrs[j].value == Some(value))
  {
    if attrs == [] then None
    else if attrs[0].name == name && attrs[0].value == Some(value) then Some(0)
    else
      var rest := FirstAttribute(attrs[1..], name, value);
      if rest.Some? then Some(rest.value + 1) else None
  }

  /**
   * `find(name => value)`: the request owning the first attribute record with
   * that name and value, or nil.
   */
  function Find(records: seq<RequestRecord>, attrs: seq<RequestAttribute>, name: Name, value: string): (r: Option<RequestRecord>)
    ensures r.Some? ==>
      r.value in records
      && exists j :: 0 <= j < |attrs| && attrs[j] == RequestAttribute(r.value.id, name, Some(value))
    ensures (forall j :: 0 <= j < |attrs| ==> !(attrs[j].name == name && attrs[j].value == Some(value))) ==> r.None?
  {
    var j := FirstAttribute(attrs, name, value);
    if j.None? then None else FindRecord(records, attrs[j.value].requestId)
  }

  /** The attributes of one request as `show` merges them: a later record wins. */
  function AttributeMap(attrs: seq<RequestAttribute>, requestId: nat): map<Name, Value>
  {
    if attrs == [] then map[]
    else
      var a := attrs[|attrs| - 1];
      var before := AttributeMap(attrs[..|attrs| - 1], requestId);
      if a.requestId == requestId then before[a.name := a.value] else before
  }

  /** A request has an attribute of a name exactly when one of its records carries that name. */
  lemma {:induction false} AttributeMapNames(attrs: seq<RequestAttribute>, requestId: nat)
    ensures forall n :: n in AttributeMap(attrs, requestId) <==>
      exists i :: 0 <= i < |attrs| && attrs[i].requestId == requestId && attrs[i].name == n
    decreases |attrs|
  {
    if attrs != [] {
      var prefix := attrs[..|attrs| - 1];
      AttributeMapNames(prefix, requestId);
      forall n | exists i :: 0 <= i < |attrs| && attrs[i].requestId == requestId && attrs[i].name == n
        ensures n in AttributeMap(attrs, requestId)
      {
        var i :| 0 <= i < |attrs| && attrs[i].requestId == requestId && attrs[i].name == n;
        if i < |prefix| {
          assert prefix[i] == attrs[i];
        }
      }
      forall n | n in AttributeMap(attrs, requestId)
        ensures exists i :: 0 <= i < |attrs| && attrs[i].requestId == requestId && attrs[i].name == n
      {
        if n !in AttributeMap(prefix, requestId) {
          assert attrs[|prefix|].name == n;
        } else {
          var i :| 0 <= i < |prefix| && prefix[i].requestId == requestId && prefix[i].name == n;
          assert attrs[i] == prefix[i];
        }
      }
    }
  }

  /** `show(id:)`: the request's record and its attributes, or nil for an unknown id. */
  function Show(records: seq<RequestRecord>, attrs: seq<RequestAttribute>, id: nat): (r: Option<(RequestRecord, map<Name, Value>)>)
    ensures r.Some? <==> FindRecord(records, id).Some?
    ensures r.Some? ==> r.value.0.id == id && r.value.1 == AttributeMap(attrs, id)
  {
    var rec := FindRecord(records, id);
    if rec.None? then None else Some((rec.value, AttributeMap(attrs, id)))
  }

  /** The request's `response_format` is `EXCEPTION`. */
  predicate IsException(attrs: seq<RequestAttribute>, requestId: nat)
  {
    var m := AttributeMap(attrs, requestId);
    "response_format" in m && m["response_format"] == Some("EXCEPTION")
  }

  function CountExceptions(records: seq<RequestRecord>, attrs: seq<RequestAttribute>, caseId: CaseId): (r: nat)
    ensures r <= |records|
  {
    if records == [] then 0
    else
      var rest := CountExceptions(records[1..], attrs, caseId);
      if records[0].caseId == caseId && IsException(attrs, records[0].id) then rest + 1 else rest
  }

  /**
   * `count(id: case_id, filter: { response_format: 'EXCEPTION' })`: how many
   * of the case's requests were answered with EXCEPTION. A nil case id
   * matches no request.
   */
  function Count(records: seq<RequestRecord>, attrs: seq<RequestAttribute>, caseId: Value): nat
  {
    if caseId.None? then 0 else CountExceptions(records, attrs, caseId.value)
  }

  /** Attribute records of other requests do not contribute to a request's attributes. */
  lemma {:induction false} AttributeMapOfOthers(attrs: seq<RequestAttribute>, requestId: nat)
    requires forall i :: 0 <= i < |attrs| ==> attrs[i].requestId != requestId
    ensures AttributeMap(attrs, requestId) == map[]
    decreases |attrs|
  {
    if attrs != [] {
      AttributeMapOfOthers(attrs[..|attrs| - 1], requestId);
    }
  }

  /** Records appended later win over earlier ones, name by name. */
  lemma {:induction false} AttributeMapAppend(a: seq<RequestAttribute>, b: seq<RequestAttribute>, requestId: nat)
    ensures AttributeMap(a + b, requestId) == AttributeMap(a, requestId) + AttributeMap(b, requestId)
    decreases |b|
  {
    if b != [] {
      var b' := b[..|b| - 1];
      assert (a + b)[..|a + b| - 1] == a + b';
      AttributeMapAppend(a, b', requestId);
    } else {
      assert a + b == a;
    }
  }

  /** The attributes one record gives. */
  lemma AttributeMapSingle(x: RequestAttribute, requestId: nat)
    ensures AttributeMap([x], requestId) == if x.requestId == requestId then map[x.name := x.value] else map[]
  {
    assert [x][..0] == [];
  }

  /** Deleting one request's records leaves every other request's attributes as they were. */
  lemma {:induction false} AttributeMapWithout(attrs: seq<RequestAttribute>, deleted: nat, requestId: nat)
    requires deleted != requestId
    ensures AttributeMap(Without(attrs, deleted), requestId) == AttributeMap(attrs, requestId)
    decreases |attrs|
  {
    if attrs != [] {
      var x := attrs[0];
      var rest := attrs[1..];
      AttributeMapWithout(rest, deleted, requestId);
      assert attrs == [x] + rest;
      AttributeMapAppend([x], rest, requestId);
      AttributeMapSingle(x, requestId);
      if x.requestId == deleted {
        assert Without(attrs, deleted) == Without(rest, deleted);
        assert AttributeMap(attrs, requestId) == map[] + AttributeMap(rest, requestId);
        assert map[] + AttributeMap(rest, requestId) == AttributeMap(rest, requestId);
      } else {
        assert Without(attrs, deleted) == [x] + Without(rest, deleted);
        AttributeMapAppend([x], Without(rest, deleted), requestId);
      }
    }
  }

  /**
   * After `update(id:, **fields)` the request's attributes are exactly
   * those of `fields`.
   */
  lemma UpdatedAttributeMapOwn(attrs: seq<RequestAttribute>, id: nat, fields: seq<(Name, Value)>)
    ensures AttributeMap(Without(attrs, id) + AttributeRecords(id, fields), id) == AttributeMap(AttributeRecords(id, fields), id)
  {
    var w := Without(attrs, id);
    var n := AttributeRecords(id, fields);
    AttributeMapAppend(w, n, id);
    WithoutLeavesNone(attrs, id);
    AttributeMapOfOthers(w, id);
    assert map[] + AttributeMap(n, id) == AttributeMap(n, id);
  }

  /** After `update(id:, **fields)` every other request's attributes are unchanged. */
  lemma UpdatedAttributeMapOther(attrs: seq<RequestAttribute>, id: nat, fields: seq<(Name, Value)>, other: nat)
    requires other != id
    ensures AttributeMap(Without(attrs, id) + AttributeRecords(id, fields), other) == AttributeMap(attrs, other)
  {
    var w := Without(attrs, id);
    var n := AttributeRecords(id, fields);
    AttributeMapAppend(w, n, other);
    RecordsBelongTo(id, fields);
    AttributeMapOfOthers(n, other);
    AttributeMapWithout(attrs, id, other);
    assert AttributeMap(w, other) + map[] == AttributeMap(w, other);
  }

  lemma WithoutLeavesNone(attrs: seq<RequestAttribute>, id: nat)
    ensures forall i :: 0 <= i < |Without(attrs, id)| ==> Without(attrs, id)[i].requestId != id
  {
    var w := Without(attrs, id);
    forall i | 0 <= i < |w|
      ensures w[i].requestId != id
    {
      assert w[i] in w;
    }
  }

  lemma RecordsBelongTo(id: nat, fields: seq<(Name, Value)>)
    ensures forall i :: 0 <= i < |AttributeRecords(id, fields)| ==> AttributeRecords(id, fields)[i].requestId == id
  {
    var n := AttributeRecords(id, fields);
    forall i | 0 <= i < |n|
      ensures n[i].requestId == id
    {
      assert n[i] in n;
    }
  }

  /** Identifiers are unique among the records. */
  predicate DistinctIds(records: seq<RequestRecord>)
  {
    forall i, j :: 0 <= i < |records| && 0 <= j < |records| && records[i].id == records[j].id ==> i == j
  }

  /**
   * The count of a case's EXCEPTION replies grows by one when exactly one of
   * its requests, `id`, turns into one and no other request changes.
   */
  lemma {:induction false} CountOneMoreException(records: seq<RequestRecord>, before: seq<RequestAttribute>,
                                                 after: seq<RequestAttribute>, caseId: CaseId, id: nat)
    requires DistinctIds(records)
    requires RequestRecord(id, caseId) in records
    requires !IsException(before, id) && IsException(after, id)
    requires forall i :: 0 <= i < |records| && records[i].id != id ==>
      IsException(after, records[i].id) == IsException(before, records[i].id)
    ensures CountExceptions(records, after, caseId) == CountExceptions(records, before, caseId) + 1
    decreases |records|
  {
    var rest := records[1..];
    assert DistinctIds(rest) by {
      forall i, j | 0 <= i < |rest| && 0 <= j < |rest| && rest[i].id == rest[j].id
        ensures i == j
      {
        assert records[i + 1].id == records[j + 1].id;
      }
    }
    if records[0] == RequestRecord(id, caseId) {
      forall i | 0 <= i < |rest|
        ensures rest[i].id != id
      {
        assert records[i + 1].id != records[0].id;
      }
      CountUnchanged(rest, before, after, caseId);
    } else {
      assert RequestRecord(id, caseId) in rest;
      assert records[0].id != id by {
        var k :| 0 <= k < |records| && records[k] == RequestRecord(id, caseId);
        assert k != 0;
      }
      CountOneMoreException(rest, before, after, caseId, id);
    }
  }

  /** Requests whose reply kind is unchanged keep the count. */
  lemma {:induction false} CountUnchanged(records: seq<RequestRecord>, before: seq<RequestAttribute>,
                                          after: seq<RequestAttribute>, caseId: CaseId)
    requires forall i :: 0 <= i < |records| ==> IsException(after, records[i].id) == IsException(before, records[i].id)
    ensures CountExceptions(records, after, caseId) == CountExceptions(records, before, caseId)
    decreases |records|
  {
    if records != [] {
      CountUnchanged(records[1..], before, after, caseId);
    }
  }

  /**
   * Replacing a request's attributes by fields that make it an EXCEPTION
   * reply adds one to its case's count.
   */
  lemma ReplacedByException(records: seq<RequestRecord>, attrs: seq<RequestAttribute>, id: nat, caseId: CaseId,
                            fields: seq<(Name, Value)>)
    requires DistinctIds(records) && RequestRecord(id, caseId) in records
    requires !IsException(attrs, id) && IsException(AttributeRecords(id, fields), id)
    ensures CountExceptions(records, Without(attrs, id) + AttributeRecords(id, fields), caseId)
            == CountExceptions(records, attrs, caseId) + 1
  {
    var after := Without(attrs, id) + AttributeRecords(id, fields);
    UpdatedAttributeMapOwn(attrs, id, fields);
    forall i | 0 <= i < |records| && records[i].id != id
      ensures IsException(after, records[i].id) == IsException(attrs, records[i].id)
    {
      UpdatedAttributeMapOther(attrs, id, fields, records[i].id);
    }
    CountOneMoreException(records, attrs, after, caseId, id);
  }

  class Requests {
    var records: seq<RequestRecord>
    var attributes: seq<RequestAttribute>
    /** The next identifier the id sequence hands out. */
    var nextId: nat

    ghost predicate Valid()
      reads this
    {
      forall i :: 0 <= i < |records| ==> records[i].id < nextId
    }

    constructor ()
      ensures Valid() && records == [] && attributes == []
    {
      records := [];
      attributes := [];
      nextId := 1;
    }

    /** `create(case_id:, **fields)`: a new request with a fresh id, and one attribute per field. */
    method Create(caseId: CaseId, fields: seq<(Name, Value)>) returns (id: nat)
      requires Valid()
      modifies this
      ensures Valid()
      ensures id == old(nextId) && nextId == id + 1
      ensures forall i :: 0 <= i < |old(records)| ==> old(records)[i].id != id
      ensures records == old(records) + [RequestRecord(id, caseId)]
      ensures attributes == old(attributes) + AttributeRecords(id, fields)
    {
      id := nextId;
      attributes := attributes + AttributeRecords(id, fields);
      records := records + [RequestRecord(id, caseId)];
      nextId := nextId + 1;
    }

    /** `update(id:, **fields)`: the request's attributes are replaced by `fields`. */
    method Update(id: nat, fields: seq<(Name, Value)>)
      modifies this
      ensures records == old(records) && nextId == old(nextId)
      ensures attributes == Without(old(attributes), id) + AttributeRecords(id, fields)
    {
      attributes := Without(attributes, id) + AttributeRecords(id, fields);
    }
  }
}
