/**
 * `RespondToMessage`: the message-driven handler of the case workflow. A
 * reply to the SMEV request of a case in `smev_sending` or `error` moves the
 * case on: an EXCEPTION reply to `error` while a retry is still allowed
 * (B1) and to `packaging` otherwise (B2); a REJECTION or RESPONSE reply to
 * `closed` (B3), or to `issuance` when the result is handed out at an MFC
 * office (B4).
 */
module RespondToMessage {
  import opened Wrappers
  import opened Values
  import opened Errors
  import opened Guards
  import opened EdgeOptions
  import opened MessageDrivenEdgeInfo
  import opened ResponseDataSchema
  import opened CaseStore
  import opened RequestStore
  import opened Outbox
  import opened Scheduling
  import opened Callbacks
  import opened Documents
  import opened OutputFilesExtractor
  import opened MessageDrivenFsa
  import Retry = RequestRepeat

  // `CASE_STATUS`: the status written with each destination state.
  const StatusPackaging: string := "Формирование пакета документов"
  const StatusError: string := "Ошибка при отправке заявки в СМЭВ"
  const StatusIssuance: string := "Выдача результата оказания услуги"
  const StatusClosed: string := "Закрыта"

  /** The predicates `AttributesContextMethods` adds to a guard's context. */
  datatype ContextPred = Repeat | MfcIssuance

  /** `ISSUE_METHOD_MFC`. */
  const IssueMethodMfc: string := "mfc"

  /** `mfc_issuance?`: a non-blank `issue_method` equal to `mfc` up to case. */
  predicate IsMfcIssuance(attrs: Snapshot)
  {
    var m := Lookup(attrs, "issue_method");
    m.Some? && !Blank(m.value) && CaseEqual(IssueMethodMfc, m.value)
  }

  /**
   * The context predicates over the snapshot; `repeat?` asks the request
   * store, as it is when the guard runs, about the snapshot's `case_id`.
   */
  predicate ContextHolds(p: ContextPred, attrs: Snapshot, requests: seq<RequestRecord>, requestAttrs: seq<RequestAttribute>)
  {
    match p
    case Repeat => Retry.RepeatAllowed(requests, requestAttrs, Lookup(attrs, "case_id"))
    case MfcIssuance => IsMfcIssuance(attrs)
  }

  /** The guard context `attributes_context` builds for each snapshot. */
  function HoldsIn(requests: seq<RequestRecord>, requestAttrs: seq<RequestAttribute>): Snapshot -> ContextPred -> bool
  {
    attrs => p => ContextHolds(p, attrs, requests, requestAttrs)
  }

  /** B1: retry allowed, to `error`. */
  function B1(): Options<ContextPred>
  {
    Options(
      Some(Pred(Repeat)),
      SetHash(map["case_status" := DStr(StatusError)]),
      NeedList([NeedName("case_id"), NeedName("special_data"), NeedName("service_id")]),
      Some("error"),
      Some(RequestRepeat))
  }

  /** B2: retry not allowed, to `packaging`. */
  function B2(): Options<ContextPred>
  {
    Options(
      Some(Not(Pred(Repeat))),
      SetHash(map["case_status" := DStr(StatusPackaging), "planned_finish_date" := DSym("planned_sending_date")]),
      NeedList([NeedName("case_id"), NeedName("planned_sending_date")]),
      Some("packaging"),
      Some(RequestRepeat))
  }

  /** B3: not handed out at an MFC office, to `closed`. */
  function B3(): Options<ContextPred>
  {
    Options(
      Some(Not(Pred(MfcIssuance))),
      SetHash(map["closed_date" := DSym("now"), "case_status" := DStr(StatusClosed)]),
      NeedOne("issue_method"),
      Some("closed"),
      None)
  }

  /** B4: handed out at an MFC office, to `issuance`. */
  function B4(): Options<ContextPred>
  {
    Options(
      Some(Pred(MfcIssuance)),
      SetHash(map["case_status" := DStr(StatusIssuance), "issuance_receiving_date" := DSym("now"),
                  "planned_finish_date" := DSym("planned_issuance_finish_date")]),
      NeedList([NeedName("issue_method"), NeedName("planned_issuance_finish_date")]),
      Some("issuance"),
      None)
  }

  /** The records `EdgeInfo.new` makes of the declarations. */
  function InfoB1(): EdgeInfo<ContextPred>
  {
    EdgeInfo(Some(Pred(Repeat)), Some(map["case_status" := DStr(StatusError)]),
             ["case_id", "special_data", "service_id"], "error", Some(RequestRepeat))
  }

  function InfoB2(): EdgeInfo<ContextPred>
  {
    EdgeInfo(Some(Not(Pred(Repeat))),
             Some(map["case_status" := DStr(StatusPackaging), "planned_finish_date" := DSym("planned_sending_date")]),
             ["case_id", "planned_sending_date"], "packaging", Some(RequestRepeat))
  }

  function InfoB3(): EdgeInfo<ContextPred>
  {
    EdgeInfo(Some(Not(Pred(MfcIssuance))), Some(map["closed_date" := DSym("now"), "case_status" := DStr(StatusClosed)]),
             ["issue_method"], "closed", None)
  }

  function InfoB4(): EdgeInfo<ContextPred>
  {
    EdgeInfo(Some(Pred(MfcIssuance)),
             Some(map["case_status" := DStr(StatusIssuance), "issuance_receiving_date" := DSym("now"),
                      "planned_finish_date" := DSym("planned_issuance_finish_date")]),
             ["issue_method", "planned_issuance_finish_date"], "issuance", None)
  }

  /** The list for the `exception` signal, in declaration order. */
  function ExceptionEdges(): seq<EdgeInfo<ContextPred>>
  {
    [InfoB1(), InfoB2()]
  }

  /** The list for the `rejection` and `response` signals, in declaration order. */
  function ReplyEdges(): seq<EdgeInfo<ContextPred>>
  {
    [InfoB3(), InfoB4()]
  }

  /** Each declaration is made from both `smev_sending` and `error`. */
  function Edges(): Table<ContextPred>
  {
    map[
      (Some("smev_sending"), "exception") := ExceptionEdges(),
      (Some("error"), "exception") := ExceptionEdges(),
      (Some("smev_sending"), "rejection") := ReplyEdges(),
      (Some("error"), "rejection") := ReplyEdges(),
      (Some("smev_sending"), "response") := ReplyEdges(),
      (Some("error"), "response") := ReplyEdges()]
  }

  /** The states the table leaves from. */
  predicate Source(s: Value)
  {
    s == Some("smev_sending") || s == Some("error")
  }

  /** The signal of a reply format: its lower-cased name. */
  lemma Signals()
    ensures Downcase(FormatName(Exception)) == "exception"
    ensures Downcase(FormatName(Rejection)) == "rejection"
    ensures Downcase(FormatName(Response)) == "response"
  {
  }

  /** Options that pass the schema are stored as given. */
  lemma Accepted(o: Options<ContextPred>)
    requires SetValid(o.assigns) && NeedValid(o.need)
    ensures MessageDrivenEdgeInfo.New(OptionsHash(o)) == Success(Stored(o))
  {
  }

  /** The declaration of B1 (to `error`) passes the options schema and gives `InfoB1`. */
  lemma DeclaredB1()
    ensures MessageDrivenEdgeInfo.New(OptionsHash(B1())) == Success(InfoB1())
  {
    var items := [NeedName("case_id"), NeedName("special_data"), NeedName("service_id")];
    assert NormaliseNeed(NeedList(items)) == ["case_id", "special_data", "service_id"];
    assert SetValid(B1().assigns) && NeedValid(B1().need);
    Accepted(B1());
  }

  /** The declaration of B2 (to `packaging`) passes the options schema and gives `InfoB2`. */
  lemma DeclaredB2()
    ensures MessageDrivenEdgeInfo.New(OptionsHash(B2())) == Success(InfoB2())
  {
    var items := [NeedName("case_id"), NeedName("planned_sending_date")];
    assert NormaliseNeed(NeedList(items)) == ["case_id", "planned_sending_date"];
    assert SetValid(B2().assigns) && NeedValid(B2().need);
    Accepted(B2());
  }

  /** The declaration of B3 (to `closed`) passes the options schema and gives `InfoB3`. */
  lemma DeclaredB3()
    ensures MessageDrivenEdgeInfo.New(OptionsHash(B3())) == Success(InfoB3())
  {
    assert SetValid(B3().assigns) && NeedValid(B3().need);
    Accepted(B3());
  }

  /** The declaration of B4 (to `issuance`) passes the options schema and gives `InfoB4`. */
  lemma DeclaredB4()
    ensures MessageDrivenEdgeInfo.New(OptionsHash(B4())) == Success(InfoB4())
  {
    var items := [NeedName("issue_method"), NeedName("planned_issuance_finish_date")];
    assert NormaliseNeed(NeedList(items)) == ["issue_method", "planned_issuance_finish_date"];
    assert SetValid(B4().assigns) && NeedValid(B4().need);
    Accepted(B4());
  }

  /**
   * A reply of any format finds a list exactly when the case is in
   * `smev_sending` or `error`: the list of B1 and B2 for EXCEPTION, that of
   * B3 and B4 for REJECTION and RESPONSE.
   */
  lemma TableDomain(attrs: Snapshot, h: Handler)
    ensures ControlOf(attrs, h) in Edges() <==> Source(Lookup(attrs, "state"))
    ensures Source(Lookup(attrs, "state")) && h.data.format == Exception ==> Edges()[ControlOf(attrs, h)] == ExceptionEdges()
    ensures Source(Lookup(attrs, "state")) && h.data.format != Exception ==> Edges()[ControlOf(attrs, h)] == ReplyEdges()
  {
    Signals();
    var s := Lookup(attrs, "state");
    var signal := Downcase(FormatName(h.data.format));
    assert ControlOf(attrs, h) == (s, signal);
    if h.data.format == Exception {
      assert signal == "exception";
    } else if h.data.format == Rejection {
      assert signal == "rejection";
    } else {
      assert signal == "response";
    }
  }

  /** The attributes the guards and the `set` values read are among the names fetched. */
  lemma NeededNames()
    ensures "case_id" in AllNeededAttrs(Edges())
    ensures "issue_method" in AllNeededAttrs(Edges())
    ensures "planned_sending_date" in AllNeededAttrs(Edges())
    ensures "planned_issuance_finish_date" in AllNeededAttrs(Edges())
  {
    var c := (Some("error"), "exception");
    var d := (Some("error"), "response");
    assert c in Edges() && Edges()[c] == ExceptionEdges();
    assert d in Edges() && Edges()[d] == ReplyEdges();
    ExceptionRow();
    ReplyRow();
    assert "case_id" in Edges()[c][0].need;
    assert "planned_sending_date" in Edges()[c][1].need;
    assert "issue_method" in Edges()[d][1].need;
    assert "planned_issuance_finish_date" in Edges()[d][1].need;
  }

  /** The exception list: B1 first, then B2, both retried by `Request::Repeat`. */
  lemma ExceptionRow()
    ensures var e := ExceptionEdges();
      && |e| == 2
      && e[0].cond == Some(Pred(Repeat)) && e[0].state == "error" && e[0].after == Some(RequestRepeat)
      && e[0].need == ["case_id", "special_data", "service_id"]
      && e[1].cond == Some(Not(Pred(Repeat))) && e[1].state == "packaging" && e[1].after == Some(RequestRepeat)
      && e[1].need == ["case_id", "planned_sending_date"]
  {
  }

  /** The reply list: B3 first, then B4, neither with a callback. */
  lemma ReplyRow()
    ensures var e := ReplyEdges();
      && |e| == 2
      && e[0].cond == Some(Not(Pred(MfcIssuance))) && e[0].state == "closed" && e[0].after == None
      && e[0].need == ["issue_method"]
      && e[1].cond == Some(Pred(MfcIssuance)) && e[1].state == "issuance" && e[1].after == None
      && e[1].need == ["issue_method", "planned_issuance_finish_date"]
  {
  }

  /** On EXCEPTION exactly one of B1 and B2 applies: B1 exactly when a retry is allowed. */
  lemma ExceptionSelection(attrs: Snapshot, requests: seq<RequestRecord>, requestAttrs: seq<RequestAttribute>)
    ensures var holds := HoldsIn(requests, requestAttrs)(attrs);
      && (Selectable(ExceptionEdges()[0], attrs, holds) <==> !Selectable(ExceptionEdges()[1], attrs, holds))
      && FindPositiveInfo(ExceptionEdges(), 0, attrs, holds)
         == if Retry.RepeatAllowed(requests, requestAttrs, Lookup(attrs, "case_id")) then Some(0) else Some(1)
  {
    var holds := HoldsIn(requests, requestAttrs)(attrs);
    assert Eval(Pred(Repeat), attrs, holds) == FromBool(holds(Repeat));
    assert Eval(Not(Pred(Repeat)), attrs, holds) == FromBool(!holds(Repeat));
  }

  /** On REJECTION or RESPONSE exactly one of B3 and B4 applies: B4 exactly for MFC issuance. */
  lemma ReplySelection(attrs: Snapshot, requests: seq<RequestRecord>, requestAttrs: seq<RequestAttribute>)
    ensures var holds := HoldsIn(requests, requestAttrs)(attrs);
      && (Selectable(ReplyEdges()[0], attrs, holds) <==> !Selectable(ReplyEdges()[1], attrs, holds))
      && FindPositiveInfo(ReplyEdges(), 0, attrs, holds) == if IsMfcIssuance(attrs) then Some(1) else Some(0)
  {
    var holds := HoldsIn(requests, requestAttrs)(attrs);
    assert Eval(Pred(MfcIssuance), attrs, holds) == FromBool(holds(MfcIssuance));
    assert Eval(Not(Pred(MfcIssuance)), attrs, holds) == FromBool(!holds(MfcIssuance));
  }

  /**
   * `mfc_issuance?` holds exactly when `issue_method` is present and is the
   * three letters m, f, c in any mix of upper and lower case.
   */
  lemma MfcIssuanceCases(attrs: Snapshot)
    ensures IsMfcIssuance(attrs) <==>
      var m := Lookup(attrs, "issue_method");
      && m.Some? && |m.value| == 3
      && (m.value[0] == 'm' || m.value[0] == 'M')
      && (m.value[1] == 'f' || m.value[1] == 'F')
      && (m.value[2] == 'c' || m.value[2] == 'C')
  {
    var m := Lookup(attrs, "issue_method");
    if m.Some? && CaseEqual(IssueMethodMfc, m.value) {
      assert |m.value| == |Downcase(m.value)| == 3;
      assert LowerChar(m.value[0]) == Downcase(m.value)[0] == 'm';
      assert LowerChar(m.value[1]) == Downcase(m.value)[1] == 'f';
      assert LowerChar(m.value[2]) == Downcase(m.value)[2] == 'c';
    }
    if m.Some? && |m.value| == 3
       && (m.value[0] == 'm' || m.value[0] == 'M')
       && (m.value[1] == 'f' || m.value[1] == 'F')
       && (m.value[2] == 'c' || m.value[2] == 'C')
    {
      assert !IsSpace(m.value[0]);
      assert Downcase(m.value) == IssueMethodMfc;
    }
  }

  // What each edge writes besides `state`. Only the handler's own methods
  // resolve a name; the snapshot's attributes do not.

  /** B1 writes the error status. */
  lemma B1Writes(h: Handler, now: string)
    ensures NewCaseAttributes(InfoB1().assigns, Accessor(h, now)) == map["case_status" := Some(StatusError)]
  {
    assert Accessor(h, now)(StatusError).None?;
  }

  /**
   * B2 writes the packaging status, and writes the name
   * `planned_sending_date` itself into `planned_finish_date`: no handler
   * method of that name exists, so the case's planned sending date is not
   * read.
   */
  lemma B2Writes(h: Handler, now: string)
    ensures NewCaseAttributes(InfoB2().assigns, Accessor(h, now))
      == map["case_status" := Some(StatusPackaging), "planned_finish_date" := Some("planned_sending_date")]
  {
    assert Accessor(h, now)(StatusPackaging).None?;
    assert Accessor(h, now)("planned_sending_date").None?;
  }

  /** B3 writes the clock reading into `closed_date` and the closed status. */
  lemma B3Writes(h: Handler, now: string)
    ensures NewCaseAttributes(InfoB3().assigns, Accessor(h, now))
      == map["closed_date" := Some(now), "case_status" := Some(StatusClosed)]
  {
    assert Accessor(h, now)(StatusClosed).None?;
  }

  /**
   * B4 writes the issuance status, the clock reading into
   * `issuance_receiving_date`, and the name `planned_issuance_finish_date`
   * itself into `planned_finish_date`.
   */
  lemma B4Writes(h: Handler, now: string)
    ensures NewCaseAttributes(InfoB4().assigns, Accessor(h, now))
      == map["case_status" := Some(StatusIssuance), "issuance_receiving_date" := Some(now),
             "planned_finish_date" := Some("planned_issuance_finish_date")]
  {
    assert Accessor(h, now)(StatusIssuance).None?;
    assert Accessor(h, now)("planned_issuance_finish_date").None?;
  }

  /**
   * The planned date of B2 and B4 is the attribute's name whatever the
   * snapshot holds, so a case whose planned date differs from that name
   * does not get it as its planned finish date.
   */
  lemma PlannedDatesNotCopied(h: Handler, now: string, attrs: Snapshot)
    requires Lookup(attrs, "planned_sending_date") != Some("planned_sending_date")
    requires Lookup(attrs, "planned_issuance_finish_date") != Some("planned_issuance_finish_date")
    ensures NewCaseAttributes(InfoB2().assigns, Accessor(h, now))["planned_finish_date"] != Lookup(attrs, "planned_sending_date")
    ensures NewCaseAttributes(InfoB4().assigns, Accessor(h, now))["planned_finish_date"]
      != Lookup(attrs, "planned_issuance_finish_date")
  {
    B2Writes(h, now);
    B4Writes(h, now);
  }

  /** An EXCEPTION reply recorded on a request makes it an exception. */
  lemma ExceptionRecorded(requestId: nat, h: Handler)
    requires h.data.format == Exception
    ensures IsException(AttributeRecords(requestId, ResponseFields(h)), requestId)
  {
    var f := ResponseFields(h);
    assert f[1..][1..] == [];
    assert AttributeRecords(requestId, f[1..]) == [RequestAttribute(requestId, "response_content", Some(h.data.specialData))];
    var n := AttributeRecords(requestId, f);
    assert n == [RequestAttribute(requestId, "response_format", Some("EXCEPTION")),
                 RequestAttribute(requestId, "response_content", Some(h.data.specialData))];
    AttributeMapAppend([n[0]], [n[1]], requestId);
    AttributeMapSingle(n[0], requestId);
    AttributeMapSingle(n[1], requestId);
    assert [n[0]] + [n[1]] == n;
  }

  /**
   * At the limit the retry is lost. With exactly `MaxExceptionsCount`
   * EXCEPTION replies recorded for the case, the guard of B1, read before
   * the reply is recorded, lets B1 move the case to `error`; but
   * `Request::Repeat`, run after the request has recorded this EXCEPTION,
   * counts one more and schedules nothing.
   */
  lemma RetryLostAtTheLimit(requests: seq<RequestRecord>, requestAttrs: seq<RequestAttribute>, requestId: nat,
                            caseId: CaseId, snapshot: Snapshot, h: Handler, messageId: string, w: World)
    requires DistinctIds(requests) && RequestRecord(requestId, caseId) in requests
    requires !IsException(requestAttrs, requestId)
    requires CountExceptions(requests, requestAttrs, caseId) == Retry.MaxExceptionsCount
    requires Lookup(snapshot, "case_id") == Some(caseId)
    requires h.data.format == Exception
    requires w.records == requests && w.attributes == requestAttrs
    ensures FindPositiveInfo(ExceptionEdges(), 0, snapshot, HoldsIn(requests, requestAttrs)(snapshot)) == Some(0)
    ensures var w' := Recorded(w, requestId, h);
      AfterRun(ExceptionEdges()[0].after, caseId, snapshot, messageId, w') == (w', Pass)
  {
    ExceptionSelection(snapshot, requests, requestAttrs);
    ExceptionRecorded(requestId, h);
    ReplacedByException(requests, requestAttrs, requestId, caseId, ResponseFields(h));
  }

  /**
   * `RespondToMessage.new(message).process` against the stores, with the
   * parser, the clock, the creation time stamped on saved files, the file
   * storage, Base64 decoding and a fresh message id as parameters.
   */
  method Respond(msg: MessageArg, parse: string -> Option<Json>, now: string, createdAt: string,
                 fetch: string -> Option<string>, decode64: string -> string, messageId: string,
                 cases: Cases, requests: Requests, documents: Store, broker: Broker, scheduler: Scheduler)
    returns (r: Outcome<Error>)
    requires requests.Valid() && documents.Valid()
    modifies cases, requests, documents, broker, scheduler
    ensures requests.Valid() && documents.Valid()
    ensures MessageDrivenFsa.New(msg, parse).Failure? ==> r == Fail(MessageDrivenFsa.New(msg, parse).error) && unchanged(cases, requests, documents, broker, scheduler)
    ensures MessageDrivenFsa.New(msg, parse).Success? ==>
      var h := MessageDrivenFsa.New(msg, parse).value;
      var sel := Select(Edges(), h, old(requests.records), old(requests.attributes), old(cases.records), old(cases.attributes),
                        HoldsIn(old(requests.records), old(requests.attributes)));
      && (sel.Failure? ==> r == Fail(sel.error) && unchanged(cases, requests, documents, broker, scheduler))
      && (sel.Success? && Saving(Entries(h.data.attachments), fetch, decode64).1.Some? ==>
            r == Fail(Saving(Entries(h.data.attachments), fetch, decode64).1.value) && unchanged(cases, requests, broker, scheduler))
      && (sel.Success? && Saving(Entries(h.data.attachments), fetch, decode64).1.None? ==>
            cases.attributes == Updated(old(cases.attributes), [sel.value.caseId], Changes(sel.value.edge, h, now))
            && (Observe(requests, broker, scheduler), r)
               == AfterRun(sel.value.edge.after, sel.value.caseId, sel.value.snapshot, messageId,
                           Recorded(old(Observe(requests, broker, scheduler)), sel.value.requestId, h)))
  {
    var hr := MessageDrivenFsa.New(msg, parse);
    if hr.Failure? {
      return Fail(hr.error);
    }
    r := Process(Edges(), hr.value, HoldsIn(requests.records, requests.attributes), now, createdAt, fetch, decode64, messageId,
                 cases, requests, documents, broker, scheduler);
  }
}
