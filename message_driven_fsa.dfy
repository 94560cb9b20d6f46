/**
 * `Base::MessageDrivenFSA`: a handler driven by a reply to an earlier
 * request. The reply names the request by its message id; the table maps
 * (current state, lower-cased reply format) to an ordered list of edges, and
 * the first edge whose `if` holds is taken. Processing stores the reply's
 * attachments, records the reply on the request, writes the new state and
 * the resolved `set` values in one update, and then runs the edge's `after`
 * callback with the snapshot read before any write.
 */
module MessageDrivenFsa {
  import opened Wrappers
  import opened Values
  import opened Errors
  import opened Guards
  import opened EdgeOptions
  import opened MessageDrivenEdgeInfo
  import opened ResponseDataSchema
  import opened CaseStore
  import opened RequestStore
  import opened Outbox
  import opened Scheduling
  import opened Callbacks
  import opened Documents
  import opened OutputFilesExtractor
  import StateDrivenEdgeInfo
  import StateDrivenFsa

  /** (current state or nil, lower-cased reply format). */
  type Control = (Value, string)

  /** Each control maps to its edges in declaration order. */
  type Table<P> = map<Control, seq<EdgeInfo<P>>>

  /** The constructor's argument: a STOMP message with its body, or any other object. */
  datatype MessageArg = StompMessage(body: string) | NotAMessage

  /** The field the constructor sets: the reply body, parsed and checked. */
  datatype Handler = Handler(data: ResponseData)

  /**
   * `new(message)`: the class check, then JSON parsing (the parser is the
   * parameter `parse`), then the schema; the store is not read.
   */
  function New(msg: MessageArg, parse: string -> Option<Json>): (r: Result<Handler, Error>)
    ensures msg.NotAMessage? ==> r == Failure(MessageBadType)
    ensures msg.StompMessage? && parse(msg.body).None? ==> r == Failure(ParseError)
    ensures msg.StompMessage? && parse(msg.body).Some? && !Valid(parse(msg.body).value) ==> r == Failure(ValidationError)
    ensures r.Success? <==> msg.StompMessage? && parse(msg.body).Some? && Valid(parse(msg.body).value)
    ensures r.Success? ==> Decode(parse(msg.body).value) == Some(r.value.data)
  {
    if msg.NotAMessage? then Failure(MessageBadType)
    else
      var j := parse(msg.body);
      if j.None? then Failure(ParseError)
      else
        var d := Decode(j.value);
        if d.None? then Failure(ValidationError) else Success(Handler(d.value))
  }

  /** `all_needed_attrs`: `state` and every name some edge of some list needs. */
  function AllNeededAttrs<P>(table: Table<P>): (r: set<Name>)
    ensures "state" in r
    ensures forall c, i, n :: c in table && 0 <= i < |table[c]| && n in table[c][i].need ==> n in r
    ensures forall n :: n in r ==>
      n == "state" || exists c, i :: c in table && 0 <= i < |table[c]| && n in table[c][i].need
  {
    {"state"} + set c, i, n | c in table && 0 <= i < |table[c]| && n in table[c][i].need :: n
  }

  /** An edge `find_positive_info` accepts: no `if`, or an `if` whose value is truthy. */
  predicate Selectable<P>(e: EdgeInfo<P>, attrs: Snapshot, holds: P -> bool)
  {
    e.cond.None? || Holds(e.cond.value, attrs, holds)
  }

  /** `find_positive_info`, from position `k` on: the first acceptable edge. */
  function FindPositiveInfo<P>(edges: seq<EdgeInfo<P>>, k: nat, attrs: Snapshot, holds: P -> bool): (r: Option<nat>)
    requires k <= |edges|
    ensures r.Some? ==> k <= r.value < |edges| && Selectable(edges[r.value], attrs, holds)
    ensures r.Some? ==> forall j :: k <= j < r.value ==> !Selectable(edges[j], attrs, holds)
    ensures r.None? <==> forall j :: k <= j < |edges| ==> !Selectable(edges[j], attrs, holds)
    decreases |edges| - k
  {
    if k == |edges| then None
    else if Selectable(edges[k], attrs, holds) then Some(k)
    else FindPositiveInfo(edges, k + 1, attrs, holds)
  }

  /**
   * The handler's string-valued methods without arguments, as `respond_to?`
   * with private methods included sees them: `now` (the clock is the
   * parameter), `type`, and the readers of the reply.
   */
  function Accessor(h: Handler, now: string): Name -> Option<Value>
  {
    (n: Name) =>
      if n == "now" then Some(Some(now))
      else if n == "type" then Some(Some(HandlerType))
      else if n == "original_message_id" then Some(Some(h.data.id))
      else if n == "response_format" then Some(Some(FormatName(h.data.format)))
      else if n == "response_content" then Some(Some(h.data.specialData))
      else None
  }

  /**
   * `obtain_value(value_info)`: a name the handler answers to gives that
   * method's result, any other name is written as it stands, and any other
   * object (nil included) is written as it is. Nothing is ever left out.
   */
  function ObtainValue(d: Descriptor, accessor: Name -> Option<Value>): (r: Value)
    ensures d.DNil? ==> r.None?
    ensures (d.DStr? || d.DSym?) && accessor(d.s).Some? ==> r == accessor(d.s).value
    ensures (d.DStr? || d.DSym?) && accessor(d.s).None? ==> r == Some(d.s)
    ensures d.DOther? ==> r == Some(d.repr)
  {
    match d
    case DNil => None
    case DStr(s) => if accessor(s).Some? then accessor(s).value else Some(s)
    case DSym(s) => if accessor(s).Some? then accessor(s).value else Some(s)
    case DOther(repr) => Some(repr)
  }

  /** The resolved `set` hash (`set || {}`): every key is kept. */
  function NewCaseAttributes(assigns: Option<map<Name, Descriptor>>, accessor: Name -> Option<Value>): (r: map<Name, Value>)
    ensures assigns.None? ==> r == map[]
    ensures assigns.Some? ==> r.Keys == assigns.value.Keys
    ensures forall k :: k in r ==> r[k] == ObtainValue(assigns.value[k], accessor)
  {
    if assigns.None? then map[]
    else map k | k in assigns.value :: ObtainValue(assigns.value[k], accessor)
  }

  /** What `process_case` settles before anything is written. */
  datatype Plan<P> = Plan(requestId: nat, caseId: CaseId, snapshot: Snapshot, control: Control, edge: EdgeInfo<P>)

  /** The control key a snapshot and a reply give. */
  function ControlOf(attrs: Snapshot, h: Handler): Control
  {
    (Lookup(attrs, "state"), Downcase(FormatName(h.data.format)))
  }

  /**
   * `find_request!` and `process_case`: the request by the reply's id, its
   * case, the type check, the needed attributes, the control check and the
   * edge choice, in this order. The guards see the snapshot through
   * `holds(snapshot)`.
   */
  function Select<P>(table: Table<P>, h: Handler, requests: seq<RequestRecord>, requestAttrs: seq<RequestAttribute>,
                     cases: seq<CaseRecord>, store: Attributes, holds: Snapshot -> P -> bool): (r: Result<Plan<P>, Error>)
    ensures Find(requests, requestAttrs, "message_id", h.data.id).None? ==> r == Failure(RequestNotFound(h.data.id))
    ensures r.Success? ==>
      var p := r.value;
      var req := Find(requests, requestAttrs, "message_id", h.data.id);
      && req == Some(RequestRecord(p.requestId, p.caseId))
      && FindCase(cases, p.caseId).Some? && FindCase(cases, p.caseId).value.caseType == HandlerType
      && p.snapshot == ShowAttributes(store, p.caseId, Some(AllNeededAttrs(table)))
      && p.control == ControlOf(p.snapshot, h) && p.control in table
      && FindPositiveInfo(table[p.control], 0, p.snapshot, holds(p.snapshot)).Some?
      && p.edge == table[p.control][FindPositiveInfo(table[p.control], 0, p.snapshot, holds(p.snapshot)).value]
  {
    var req := Find(requests, requestAttrs, "message_id", h.data.id);
    if req.None? then Failure(RequestNotFound(h.data.id))
    else
      var c := FindCase(cases, req.value.caseId);
      if c.None? then Failure(NoMethod("type"))
      else if c.value.caseType != HandlerType then Failure(CaseBadType(c.value.caseType))
      else
        var attrs := ShowAttributes(store, c.value.id, Some(AllNeededAttrs(table)));
        var control := ControlOf(attrs, h);
        if control !in table then Failure(ControlAbsent(control.0, control.1))
        else
          var i := FindPositiveInfo(table[control], 0, attrs, holds(attrs));
          if i.None? then Failure(NoEdgeSelected(control.0, control.1))
          else Success(Plan(req.value.id, c.value.id, attrs, control, table[control][i.value]))
  }

  /**
   * The failures of `Select` past the request lookup, each under the
   * condition the source checks: a missing case, a foreign type, an absent
   * control, no acceptable edge.
   */
  lemma SelectFailures<P>(table: Table<P>, h: Handler, requests: seq<RequestRecord>, requestAttrs: seq<RequestAttribute>,
                          cases: seq<CaseRecord>, store: Attributes, holds: Snapshot -> P -> bool)
    requires Find(requests, requestAttrs, "message_id", h.data.id).Some?
    ensures var req := Find(requests, requestAttrs, "message_id", h.data.id).value;
      var c := FindCase(cases, req.caseId);
      var attrs := ShowAttributes(store, req.caseId, Some(AllNeededAttrs(table)));
      var r := Select(table, h, requests, requestAttrs, cases, store, holds);
      && (c.None? ==> r == Failure(NoMethod("type")))
      && (c.Some? && c.value.caseType != HandlerType ==> r == Failure(CaseBadType(c.value.caseType)))
      && (c.Some? && c.value.caseType == HandlerType && ControlOf(attrs, h) !in table ==>
            r == Failure(ControlAbsent(ControlOf(attrs, h).0, ControlOf(attrs, h).1)))
      && (c.Some? && c.value.caseType == HandlerType && ControlOf(attrs, h) in table
          && (forall j :: 0 <= j < |table[ControlOf(attrs, h)]| ==> !Selectable(table[ControlOf(attrs, h)][j], attrs, holds(attrs))) ==>
            r == Failure(NoEdgeSelected(ControlOf(attrs, h).0, ControlOf(attrs, h).1)))
  {
    var req := Find(requests, requestAttrs, "message_id", h.data.id).value;
    var c := FindCase(cases, req.caseId);
    if c.Some? {
      assert c.value.id == req.caseId;
    }
  }

  /** `update_request_attributes`: the fields written on the request. */
  function ResponseFields(h: Handler): (r: seq<(Name, Value)>)
    ensures |r| == 2
    ensures r[0] == ("response_format", Some(FormatName(h.data.format)))
    ensures r[1] == ("response_content", Some(h.data.specialData))
  {
    [("response_format", Some(FormatName(h.data.format))), ("response_content", Some(h.data.specialData))]
  }

  /** `update_case_attributes`: `state` set to the edge's destination, then the resolved `set` entries. */
  function Changes<P>(e: EdgeInfo<P>, h: Handler, now: string): (r: map<Name, Value>)
    ensures "state" in r
    ensures forall n :: n in r <==> n == "state" || (e.assigns.Some? && n in e.assigns.value)
    ensures forall n :: e.assigns.Some? && n in e.assigns.value ==> r[n] == ObtainValue(e.assigns.value[n], Accessor(h, now))
    ensures (e.assigns.None? || "state" !in e.assigns.value) ==> r["state"] == Some(e.state)
  {
    map["state" := Some(e.state)] + NewCaseAttributes(e.assigns, Accessor(h, now))
  }

  /** The request store, broker and scheduler once the request has recorded the reply. */
  function Recorded(w: World, requestId: nat, h: Handler): World
  {
    w.(attributes := Without(w.attributes, requestId) + AttributeRecords(requestId, ResponseFields(h)))
  }

  /**
   * `process` against the stores. Choosing the edge writes nothing; then the
   * attachments are stored, and a failure there ends processing with the
   * documents stored so far kept and nothing else written; otherwise the
   * request records the reply, the case takes the edge's state and values
   * in one update, and the callback runs with the snapshot read before.
   */
  method Process<P>(table: Table<P>, h: Handler, holds: Snapshot -> P -> bool, now: string, createdAt: string,
                    fetch: string -> Option<string>, decode64: string -> string, messageId: string,
                    cases: Cases, requests: Requests, documents: Store, broker: Broker, scheduler: Scheduler)
    returns (r: Outcome<Error>)
    requires requests.Valid() && documents.Valid()
    modifies cases, requests, documents, broker, scheduler
    ensures requests.Valid() && documents.Valid()
    ensures var sel := Select(table, h, old(requests.records), old(requests.attributes), old(cases.records), old(cases.attributes), holds);
      sel.Failure? ==> r == Fail(sel.error) && unchanged(cases, requests, documents, broker, scheduler)
    ensures var sel := Select(table, h, old(requests.records), old(requests.attributes), old(cases.records), old(cases.attributes), holds);
      sel.Success? ==>
        var (saved, err) := Saving(Entries(h.data.attachments), fetch, decode64);
        && documents.files == old(documents.files) + NewFiles(saved, old(documents.nextFileId))
        && documents.documents == old(documents.documents) + NewDocuments(saved, old(documents.nextFileId), sel.value.caseId, createdAt)
        && documents.nextFileId == old(documents.nextFileId) + |saved|
        && (err.Some? ==> r == Fail(err.value) && unchanged(cases, requests, broker, scheduler))
        && (err.None? ==>
              cases.records == old(cases.records)
              && cases.attributes == Updated(old(cases.attributes), [sel.value.caseId], Changes(sel.value.edge, h, now))
              && (Observe(requests, broker, scheduler), r)
                 == AfterRun(sel.value.edge.after, sel.value.caseId, sel.value.snapshot, messageId,
                             Recorded(old(Observe(requests, broker, scheduler)), sel.value.requestId, h)))
  {
    var sel := Select(table, h, requests.records, requests.attributes, cases.records, cases.attributes, holds);
    if sel.Failure? {
      return Fail(sel.error);
    }
    var p := sel.value;
    r := Extract(p.caseId, h.data.attachments, fetch, decode64, createdAt, documents);
    if r.Fail? {
      return;
    }
    requests.Update(p.requestId, ResponseFields(h));
    cases.Update([p.caseId], Changes(p.edge, h, now));
    r := RunAfter(p.edge.after, p.caseId, p.snapshot, messageId, requests, broker, scheduler);
  }

  /**
   * The two engines read a guard differently. A bare read of a nil
   * attribute does not stop a state-driven edge, whose check blocks only on
   * `false`, but a message-driven edge with that `if` is never selected.
   */
  lemma NilGuardPassesCheckButIsNotSelected<P>(n: Name, attrs: Snapshot, holds: P -> bool,
                                               checked: StateDrivenEdgeInfo.EdgeInfo<P>, selected: EdgeInfo<P>)
    requires Lookup(attrs, n).None?
    requires checked.check == Some(Attr(n)) && selected.cond == Some(Attr(n))
    ensures StateDrivenFsa.InvokeCheck(checked, attrs, holds) == Pass
    ensures !Selectable(selected, attrs, holds)
    ensures FindPositiveInfo([selected], 0, attrs, holds).None?
  {
    NilReadIsFalsyButNotFalse(n, attrs, holds);
  }
}
