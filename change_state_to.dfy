/**
 * `ChangeStateTo`: the state-driven handler of the case workflow. Its table
 * has one edge per allowed (current state, requested state) pair; guards
 * decide between the alternatives out of `pending` and out of `issuance`.
 */
module ChangeStateTo {
  import opened Wrappers
  import opened Values
  import opened Errors
  import opened Guards
  import opened EdgeOptions
  import opened StateDrivenEdgeInfo
  import opened CaseStore
  import opened StateDrivenFsa
  import opened ChangeStateToDsl
  import opened RequestStore
  import opened Outbox
  import opened Scheduling
  import opened Callbacks

  // `CASE_STATUS`: the human-readable status written with each state, one
  // constant per entry of the source's table.
  const StatusSmevSending: string := "Отправка заявки в СМЭВ"
  const StatusPackaging: string := "Формирование пакета документов"
  const StatusPending: string := "Ожидание отправки в ведомство"
  const StatusProcessing: string := "Обработка пакета документов в ведомстве"
  const StatusIssuance: string := "Выдача результата оказания услуги"
  const StatusRejecting: string := "Возврат невостребованного результата в ведомство"
  const StatusClosed: string := "Закрыта"

  /** The predicates `CheckContextMethods` adds to a guard's context. */
  datatype CheckPred = IssuanceInInstitution | Rejected | CanBeIssued

  const IssueMethodInstitution: string := "institution"

  /** `issuance_in_institution?`: false for a nil `issue_method`, else a case-insensitive match. */
  predicate InInstitution(attrs: Snapshot)
  {
    var m := Lookup(attrs, "issue_method");
    m.Some? && CaseEqual(m.value, IssueMethodInstitution)
  }

  /** `rejected?`: the case has a `rejecting_date`. */
  predicate IsRejected(attrs: Snapshot)
  {
    Lookup(attrs, "rejecting_date").Some?
  }

  /**
   * `can_be_issued?`: today is before `planned_rejecting_date`; any failure
   * to read that date (nil, unparseable) counts as true.
   */
  predicate Issuable(attrs: Snapshot, today: Date)
  {
    var d := Lookup(attrs, "planned_rejecting_date");
    d.None? || ParseDate(d.value).None? || DateBefore(today, ParseDate(d.value).value)
  }

  function Holds(p: CheckPred, attrs: Snapshot, today: Date): bool
  {
    match p
    case IssuanceInInstitution => InInstitution(attrs)
    case Rejected => IsRejected(attrs)
    case CanBeIssued => Issuable(attrs, today)
  }

  function GuardErrorClass(name: string): ErrorClass
  {
    ErrorClass(name, true)
  }

  // The attribute names the edges copy or blank, spelled as the prefix of
  // their group followed by the suffixes the groups share.

  /** The suffixes of the `pending_register_*` and `pending_rejecting_register_*` names. */
  const RegisterSuffixes: seq<Name> := [
    "institution_name",
    "institution_office_building",
    "institution_office_city",
    "institution_office_country_code",
    "institution_office_country_name",
    "institution_office_district",
    "institution_office_house",
    "institution_office_index",
    "institution_office_region_code",
    "institution_office_region_name",
    "institution_office_room",
    "institution_office_settlement",
    "institution_office_street",
    "number",
    "operator_id",
    "operator_middle_name",
    "operator_name",
    "operator_position",
    "operator_surname"]

  /** The suffixes of the `processing_*`, `closed_*` and `issuance_*` names. */
  const MfcSuffixes: seq<Name> := [
    "office_mfc_building",
    "office_mfc_city",
    "office_mfc_country_code",
    "office_mfc_country_name",
    "office_mfc_district",
    "office_mfc_house",
    "office_mfc_index",
    "office_mfc_region_code",
    "office_mfc_region_name",
    "office_mfc_room",
    "office_mfc_settlement",
    "office_mfc_street",
    "operator_id",
    "operator_middle_name",
    "operator_name",
    "operator_position",
    "operator_surname"]

  /** Each suffix with the prefix in front, in order. */
  function Prefixed(p: string, s: seq<Name>): (r: seq<Name>)
    ensures |r| == |s|
    ensures forall i :: 0 <= i < |s| ==> r[i] == p + s[i]
  {
    seq(|s|, i requires 0 <= i < |s| => p + s[i])
  }

  /** A name without the prefix is none of the prefixed names. */
  lemma PrefixedExcludes(p: string, s: seq<Name>, n: Name)
    requires !(p <= n)
    ensures n !in Prefixed(p, s)
  {
    forall i | 0 <= i < |s|
      ensures Prefixed(p, s)[i] != n
    {
      assert p <= Prefixed(p, s)[i];
    }
  }

  /** A string is not a prefix of a name it differs from at some index. */
  lemma NotPrefixAt(p: string, n: Name, i: nat)
    requires i < |p| && (i >= |n| || p[i] != n[i])
    ensures !(p <= n)
  {
  }

  /** The prefix followed by a name that is not a suffix is none of the prefixed names. */
  lemma PrefixedExcludesSuffix(p: string, s: seq<Name>, x: Name)
    requires x !in s
    ensures p + x !in Prefixed(p, s)
  {
    forall i | 0 <= i < |s|
      ensures Prefixed(p, s)[i] != p + x
    {
      assert (p + x)[|p|..] == x;
      assert (p + s[i])[|p|..] == s[i];
    }
  }

  /** No prefixed name is a reader when no reader has the prefix. */
  lemma PrefixedNotReader(p: string, s: seq<Name>, h: Handler, now: string)
    requires p in FieldPrefixes
    ensures forall n :: n in Prefixed(p, s) ==> Accessor(h, now)(n).None?
  {
    ReadersUnprefixed(p);
    forall n | n in Prefixed(p, s)
      ensures Accessor(h, now)(n).None?
    {
      var i :| 0 <= i < |s| && Prefixed(p, s)[i] == n;
      assert p <= n;
      forall j | 0 <= j < |ReaderNames|
        ensures ReaderNames[j] != n
      {
      }
      AccessorResponds(h, now, n);
    }
  }

  /** The prefixes of the attribute groups the edges copy or blank. */
  const FieldPrefixes: seq<string> := ["pending_register_", "pending_rejecting_register_", "processing_", "closed_", "issuance_"]

  /** No reader name begins with a group prefix. */
  lemma ReadersUnprefixed(p: string)
    requires p in FieldPrefixes
    ensures forall j :: 0 <= j < |ReaderNames| ==> !(p <= ReaderNames[j])
  {
    // The index where `p` and each reader name first differ.
    var at := if p == "pending_register_" || p == "pending_rejecting_register_" then [0, 2, 0, 1, 1, 1, 1, 0, 0]
      else if p == "processing_" then [0, 1, 0, 1, 1, 1, 1, 0, 0]
      else if p == "closed_" then [0, 0, 1, 0, 0, 0, 0, 0, 0]
      else [0, 0, 0, 0, 0, 0, 0, 0, 0];
    forall j | 0 <= j < |ReaderNames|
      ensures !(p <= ReaderNames[j])
    {
      NotPrefixAt(p, ReaderNames[j], at[j]);
    }
  }

  const PendingRegisterFields: seq<Name> := Prefixed("pending_register_", RegisterSuffixes)
  const PendingRejectingRegisterFields: seq<Name> := Prefixed("pending_rejecting_register_", RegisterSuffixes)
  const ProcessingFields: seq<Name> := Prefixed("processing_", MfcSuffixes)
  const ClosedFields: seq<Name> := Prefixed("closed_", MfcSuffixes)
  const IssuanceFields: seq<Name> := Prefixed("issuance_", MfcSuffixes) + ["result_id"]

  /** nil → smev_sending: a new case is sent to SMEV. */
  function EdgeA(): Options<CheckPred>
  {
    Options(None, None,
      SetHash(SetA()),
      NeedList([NeedName("special_data"), NeedName("service_id")]),
      Some(RequestCreate))
  }

  /** The `set` option of EdgeA. */
  function SetA(): map<Name, Descriptor>
  {
    map[
      "case_creation_date" := DSym("now"),
      "case_id" := DSym("case_id"),
      "case_status" := DStr(StatusSmevSending)]
  }

  // The `set` options below splice a DSL hash into a literal one; the
  // literal keys never occur in the spliced hash, so the result is the
  // spliced hash with the literal entries added.

  /** packaging → pending. */
  function EdgeC1(): Options<CheckPred>
  {
    Options(None, None,
      SetHash(SetC1()),
      NeedOne("planned_sending_date"),
      None)
  }

  /** The `set` option of EdgeC1. */
  function SetC1(): map<Name, Descriptor>
  {
    FromParamsWithTheSameNames(PendingRegisterFields)
      ["case_status" := DStr(StatusPending)]
      ["pending_register_sending_date" := DSym("now")]
      ["planned_finish_date" := DSym("planned_sending_date")]
  }

  /** pending → packaging, unless the case is rejected. */
  function EdgeC2(): Options<CheckPred>
  {
    Options(Some(Not(Pred(Rejected))), Some(GuardErrorClass("PendingPackaging")),
      SetHash(SetC2()),
      NeedList([NeedName("rejecting_date"), NeedName("planned_sending_date")]),
      None)
  }

  /** The `set` option of EdgeC2. */
  function SetC2(): map<Name, Descriptor>
  {
    ChangeStateToDsl.Blank(PendingRegisterFields + ["pending_register_sending_date"])
      ["case_status" := DStr(StatusPackaging)]
      ["planned_finish_date" := DSym("planned_sending_date")]
  }

  /** pending → processing, unless issued in the institution or rejected. */
  function EdgeC3(): Options<CheckPred>
  {
    Options(Some(And(Not(Pred(IssuanceInInstitution)), Not(Pred(Rejected)))),
      Some(GuardErrorClass("PendingProcessing")),
      SetHash(SetC3()),
      NeedList([NeedName("issue_method"), NeedName("rejecting_date"), NeedName("planned_receiving_date")]),
      None)
  }

  /** The `set` option of EdgeC3. */
  function SetC3(): map<Name, Descriptor>
  {
    FromParamsWithTheSameNames(ProcessingFields)
      ["case_status" := DStr(StatusProcessing)]
      ["processing_sending_date" := DSym("now")]
      ["planned_finish_date" := DSym("planned_receiving_date")]
  }

  /** pending → rejecting, when the case is rejected. */
  function EdgeC4(): Options<CheckPred>
  {
    Options(Some(Pred(Rejected)), Some(GuardErrorClass("PendingRejecting")),
      SetHash(SetC4()),
      NeedList([NeedName("rejecting_date"), NeedName("planned_rejecting_finish_date")]),
      None)
  }

  /** The `set` option of EdgeC4. */
  function SetC4(): map<Name, Descriptor>
  {
    ChangeStateToDsl.Blank(PendingRejectingRegisterFields + ["pending_rejecting_register_sending_date"])
      ["case_status" := DStr(StatusRejecting)]
      ["planned_finish_date" := DSym("planned_rejecting_finish_date")]
  }

  /** rejecting → pending. */
  function EdgeC5(): Options<CheckPred>
  {
    Options(None, None,
      SetHash(SetC5()),
      NeedOne("planned_rejecting_finish_date"),
      None)
  }

  /** The `set` option of EdgeC5. */
  function SetC5(): map<Name, Descriptor>
  {
    FromParamsWithTheSameNames(PendingRejectingRegisterFields)
      ["case_status" := DStr(StatusPending)]
      ["pending_rejecting_register_sending_date" := DSym("now")]
      ["planned_finish_date" := DSym("planned_rejecting_finish_date")]
  }

  /** pending → closed, when issued in the institution or rejected. */
  function EdgeC6(): Options<CheckPred>
  {
    Options(Some(Or(Pred(IssuanceInInstitution), Pred(Rejected))), Some(GuardErrorClass("PendingClosed")),
      SetHash(SetC6()),
      NeedList([NeedName("issue_method"), NeedName("rejecting_date")]),
      None)
  }

  /** The `set` option of EdgeC6, written out identically for EdgeC9. */
  function SetC6(): map<Name, Descriptor>
  {
    FromParamsWithTheSameNames(ClosedFields)
      ["case_status" := DStr(StatusClosed)]
      ["closed_date" := DSym("now")]
      ["planned_finish_date" := DNil]
  }

  /** processing → issuance. */
  function EdgeC7(): Options<CheckPred>
  {
    Options(None, None,
      SetHash(SetC7()),
      NeedOne("planned_issuance_finish_date"),
      None)
  }

  /** The `set` option of EdgeC7. */
  function SetC7(): map<Name, Descriptor>
  {
    FromParamsWithTheSameNames(IssuanceFields)
      ["case_status" := DStr(StatusIssuance)]
      ["issuance_receiving_date" := DSym("now")]
      ["planned_finish_date" := DSym("planned_issuance_finish_date")]
  }

  /** issuance → rejecting, once the result can no longer be issued. */
  function EdgeC8(): Options<CheckPred>
  {
    Options(Some(Not(Pred(CanBeIssued))), Some(GuardErrorClass("IssuanceRejecting")),
      SetHash(SetC8()),
      NeedList([NeedName("planned_rejecting_date"), NeedName("planned_rejecting_finish_date")]),
      None)
  }

  /** The `set` option of EdgeC8. */
  function SetC8(): map<Name, Descriptor>
  {
    map[
      "case_status" := DStr(StatusRejecting),
      "rejecting_date" := DSym("now"),
      "planned_finish_date" := DSym("planned_rejecting_finish_date")]
  }

  /** issuance → closed, while the result can still be issued. */
  function EdgeC9(): Options<CheckPred>
  {
    Options(Some(Pred(CanBeIssued)), Some(GuardErrorClass("IssuanceClosed")),
      SetHash(SetC6()),
      NeedOne("planned_rejecting_date"),
      None)
  }



  /** The pairs the table accepts, in the order of the declarations. */
  const SupportedPairs: seq<Key> := [
    (None, "smev_sending"),
    (Some("packaging"), "pending"),
    (Some("pending"), "packaging"),
    (Some("pending"), "processing"),
    (Some("pending"), "rejecting"),
    (Some("rejecting"), "pending"),
    (Some("pending"), "closed"),
    (Some("processing"), "issuance"),
    (Some("issuance"), "rejecting"),
    (Some("issuance"), "closed")]

  /** The declaration of each supported pair. */
  function Declaration(k: Key): Options<CheckPred>
  {
    match k.0
    case None => if k.1 == "smev_sending" then EdgeA() else Undeclared()
    case Some(from) => DeclarationFrom(from, k.1)
  }

  /** The declarations of the edges that leave the state `from`. */
  function DeclarationFrom(from: string, to: string): Options<CheckPred>
  {
    match from
    case "packaging" => if to == "pending" then EdgeC1() else Undeclared()
    case "pending" =>
      (match to
       case "packaging" => EdgeC2()
       case "processing" => EdgeC3()
       case "rejecting" => EdgeC4()
       case "closed" => EdgeC6()
       case _ => Undeclared())
    case "rejecting" => if to == "pending" then EdgeC5() else Undeclared()
    case "processing" => if to == "issuance" then EdgeC7() else Undeclared()
    case "issuance" =>
      (match to
       case "rejecting" => EdgeC8()
       case "closed" => EdgeC9()
       case _ => Undeclared())
    case _ => Undeclared()
  }

  /** Options that declare nothing, for a pair outside the table. */
  function Undeclared(): Options<CheckPred>
  {
    Options(None, None, SetAbsent, NeedAbsent, None)
  }

  /**
   * The edge table: each supported pair with the record `EdgeInfo.new`
   * stores from its declaration.
   */
  function Edges(): Table<CheckPred>
  {
    map k | k in SupportedPairs :: Stored(Declaration(k))
  }

  /** The edge the table holds for a supported pair. */
  function Edge(k: Key): EdgeInfo<CheckPred>
    requires k in SupportedPairs
  {
    Edges()[k]
  }

  /** The readers of the snapshot the handler defines. */
  const PlannedDateReaders: seq<Name> := [
    "planned_issuance_finish_date",
    "planned_receiving_date",
    "planned_sending_date",
    "planned_rejecting_finish_date"]

  /** Every name `Accessor` answers. */
  const ReaderNames: seq<Name> := ["now", "person_id", "case_id"] + PlannedDateReaders + ["state", "type"]

  /** `person_id`: `operator_id`, else `exporter_id`, from `params`. */
  function PersonId(params: map<Name, Value>): Value
  {
    if Lookup(params, "operator_id").Some? then Lookup(params, "operator_id") else Lookup(params, "exporter_id")
  }

  /**
   * The handler's string-valued methods without arguments, as `respond_to?`
   * and `send` find them: the clock's `now`, `person_id`, `case_id`, the
   * readers of planned dates, and the `state` and `type` readers.
   */
  function Accessor(h: Handler, now: string): Name -> Option<Value>
  {
    (n: Name) =>
      if n == "now" then Some(Some(now))
      else if n == "person_id" then Some(PersonId(h.params))
      else if n == "case_id" then Some(Some(h.record.id))
      else if n in PlannedDateReaders then Some(Lookup(h.attrs, n))
      else if n == "state" then Some(Some(h.state))
      else if n == "type" then Some(Some(HandlerType))
      else None
  }

  /** The handler responds to exactly the reader names. */
  lemma AccessorResponds(h: Handler, now: string, n: Name)
    ensures Accessor(h, now)(n).Some? <==> n in ReaderNames
  {
    assert n in ReaderNames <==> n in ["now", "person_id", "case_id"] || n in PlannedDateReaders || n in ["state", "type"];
  }

  /** `:now` resolves to the handler's clock reading. */
  lemma NowResolves(h: Handler, now: string)
    ensures ObtainValue(DSym("now"), Accessor(h, now), h.params) == Write(Some(now))
  {
  }

  /** A `planned_*` reader resolves to the case attribute of that name. */
  lemma PlannedResolves(h: Handler, now: string, n: Name)
    requires n in PlannedDateReaders
    ensures ObtainValue(DSym(n), Accessor(h, now), h.params) == Write(Lookup(h.attrs, n))
  {
  }

  /** A string that no handler method and no request parameter answers is written literally. */
  lemma StatusResolves(h: Handler, now: string, s: string)
    requires s !in ReaderNames && s !in h.params
    ensures ObtainValue(DStr(s), Accessor(h, now), h.params) == Write(Some(s))
  {
    AccessorResponds(h, now, s);
  }

  /**
   * No status string names a handler method: each starts with a Cyrillic
   * letter, where every reader name starts with a Latin one, and the
   * rejecting status is longer than any reader name.
   */
  lemma StatusesAreNotReaders()
    ensures StatusSmevSending !in ReaderNames && StatusPackaging !in ReaderNames && StatusPending !in ReaderNames
    ensures StatusProcessing !in ReaderNames && StatusIssuance !in ReaderNames && StatusRejecting !in ReaderNames
    ensures StatusClosed !in ReaderNames
  {
    forall j | 0 <= j < |ReaderNames|
      ensures |ReaderNames[j]| <= 29 && ReaderNames[j][0] < '\U{410}'
    {
    }
    assert StatusSmevSending[0] >= '\U{410}' && StatusPackaging[0] >= '\U{410}' && StatusPending[0] >= '\U{410}';
    assert StatusProcessing[0] >= '\U{410}' && StatusIssuance[0] >= '\U{410}' && StatusClosed[0] >= '\U{410}';
    assert |StatusRejecting| > 29;
  }


  /** `set` resolution for one edge of the table: the entries `process` writes besides `state`. */
  function Writes(k: Key, h: Handler, now: string): map<Name, Value>
    requires k in SupportedPairs
  {
    NewCaseAttributes(Edge(k).assigns, Accessor(h, now), h.params)
  }

  /** The guard context: the snapshot extended with `CheckContextMethods`. */
  function HoldsAt(attrs: Snapshot, today: Date): CheckPred -> bool
  {
    p => Holds(p, attrs, today)
  }

  /**
   * `ChangeStateTo.new(c4s3, state, params).process` as a value: the
   * construction checks, then the transition of the table, with the clock
   * reading `now` and the date `today`.
   */
  function Transition(store: Attributes, c: CaseArg, state: string, params: ParamsArg, now: string, today: Date): Result<Commit, Error>
  {
    var hr := StateDrivenFsa.New(Edges(), store, c, state, params);
    if hr.Failure? then Failure(hr.error)
    else Process(Edges(), hr.value, HoldsAt(hr.value.attrs, today), Accessor(hr.value, now))
  }

  /** The table holds exactly the supported pairs. */
  lemma TableDomain()
    ensures forall k :: k in Edges() <==> k in SupportedPairs
  {
  }

  /**
   * The table's `process` (what `Transition` runs once the construction
   * checks pass) refuses a pair outside the table with `EdgeAbsent`.
   */
  lemma UnsupportedPairRefused(h: Handler, now: string, today: Date)
    requires KeyOf(h) !in SupportedPairs
    ensures Process(Edges(), h, HoldsAt(h.attrs, today), Accessor(h, now)) == Failure(EdgeAbsent(KeyOf(h).0, h.state))
  {
    TableDomain();
  }

  /**
   * For a pair of the table, `process` goes through exactly when the
   * edge's guard lets it, and then writes the requested state and the
   * edge's `set` entries.
   */
  lemma SupportedPairCommits(h: Handler, now: string, today: Date)
    requires KeyOf(h) in SupportedPairs
    ensures var t := Process(Edges(), h, HoldsAt(h.attrs, today), Accessor(h, now));
      && (t.Success? <==> InvokeCheck(Edge(KeyOf(h)), h.attrs, HoldsAt(h.attrs, today)).Pass?)
      && (t.Success? ==>
            t.value.changes.Keys == Writes(KeyOf(h), h, now).Keys + {"state"}
            && forall n :: n in Writes(KeyOf(h), h, now) ==> t.value.changes[n] == Writes(KeyOf(h), h, now)[n])
  {
    TableDomain();
  }

  /** The same transition against the stores. */
  method ChangeState(c: CaseArg, state: string, params: ParamsArg, now: string, today: Date, messageId: string,
                     cases: Cases, requests: Requests, broker: Broker, scheduler: Scheduler) returns (r: Outcome<Error>)
    requires requests.Valid()
    modifies cases, requests, broker, scheduler
    ensures requests.Valid()
    ensures Transition(old(cases.attributes), c, state, params, now, today).Failure? ==>
      r == Fail(Transition(old(cases.attributes), c, state, params, now, today).error)
      && unchanged(cases, requests, broker, scheduler)
    ensures Transition(old(cases.attributes), c, state, params, now, today).Success? ==>
      var t := Transition(old(cases.attributes), c, state, params, now, today).value;
      cases.records == old(cases.records)
      && cases.attributes == Updated(old(cases.attributes), [t.caseId], t.changes)
      && (Observe(requests, broker, scheduler), r) == AfterRun(t.after, t.caseId, t.snapshot, messageId, old(Observe(requests, broker, scheduler)))
  {
    var hr := StateDrivenFsa.New(Edges(), cases.attributes, c, state, params);
    if hr.Failure? {
      return Fail(hr.error);
    }
    var h := hr.value;
    r := Run(Edges(), h, HoldsAt(h.attrs, today), Accessor(h, now), messageId, cases, requests, broker, scheduler);
  }

  // The rows of the table: for each supported pair, the guard, the error
  // class, the names read into the snapshot and the callback.

  /** nil → smev_sending. */
  lemma SmevSendingRow()
    ensures var e := Edge((None, "smev_sending"));
      e.check == None && e.raise == None && e.need == ["special_data", "service_id"] && e.after == Some(RequestCreate)
      && e.assigns == Some(SetA())
  {
    DeclaredA();
    StoredNeedA();
    assert (None, "smev_sending") in SupportedPairs;
  }

  /** The `need` list stored for EdgeA. */
  lemma StoredNeedA()
    ensures Stored(EdgeA()).need == ["special_data", "service_id"]
  {
    assert EdgeA().need == NeedList([NeedName("special_data"), NeedName("service_id")]);
    assert NormaliseNeed(NeedList([NeedName("special_data"), NeedName("service_id")])) == ["special_data", "service_id"];
  }

  /** The table holds EdgeA under its pair. */
  lemma DeclaredA()
    ensures Declaration((None, "smev_sending")) == EdgeA()
  {
  }

  /** packaging → pending. */
  lemma PendingFromPackagingRow()
    ensures var e := Edge((Some("packaging"), "pending"));
      e.check == None && e.raise == None && e.need == ["planned_sending_date"] && e.after == None
      && e.assigns == Some(SetC1())
  {
    DeclaredC1();
    StoredNeedC1();
    assert (Some("packaging"), "pending") in SupportedPairs;
  }

  /** The `need` list stored for EdgeC1. */
  lemma StoredNeedC1()
    ensures Stored(EdgeC1()).need == ["planned_sending_date"]
  {
    assert EdgeC1().need == NeedOne("planned_sending_date");
    assert NormaliseNeed(NeedOne("planned_sending_date")) == ["planned_sending_date"];
  }

  /** The table holds EdgeC1 under its pair. */
  lemma DeclaredC1()
    ensures Declaration((Some("packaging"), "pending")) == EdgeC1()
  {
    assert Declaration((Some("packaging"), "pending")) == DeclarationFrom("packaging", "pending");
  }

  /** pending → packaging. */
  lemma PackagingRow()
    ensures var e := Edge((Some("pending"), "packaging"));
      e.check == Some(Not(Pred(Rejected))) && e.raise == Some(GuardErrorClass("PendingPackaging")) && e.need == ["rejecting_date", "planned_sending_date"] && e.after == None
      && e.assigns == Some(SetC2())
  {
    DeclaredC2();
    StoredNeedC2();
    assert (Some("pending"), "packaging") in SupportedPairs;
  }

  /** The `need` list stored for EdgeC2. */
  lemma StoredNeedC2()
    ensures Stored(EdgeC2()).need == ["rejecting_date", "planned_sending_date"]
  {
    assert EdgeC2().need == NeedList([NeedName("rejecting_date"), NeedName("planned_sending_date")]);
    assert NormaliseNeed(NeedList([NeedName("rejecting_date"), NeedName("planned_sending_date")])) == ["rejecting_date", "planned_sending_date"];
  }

  /** The table holds EdgeC2 under its pair. */
  lemma DeclaredC2()
    ensures Declaration((Some("pending"), "packaging")) == EdgeC2()
  {
    assert Declaration((Some("pending"), "packaging")) == DeclarationFrom("pending", "packaging");
  }

  /** pending → processing. */
  lemma ProcessingRow()
    ensures var e := Edge((Some("pending"), "processing"));
      e.check == Some(And(Not(Pred(IssuanceInInstitution)), Not(Pred(Rejected)))) && e.raise == Some(GuardErrorClass("PendingProcessing")) && e.need == ["issue_method", "rejecting_date", "planned_receiving_date"] && e.after == None
      && e.assigns == Some(SetC3())
  {
    DeclaredC3();
    StoredNeedC3();
    assert (Some("pending"), "processing") in SupportedPairs;
  }

  /** The `need` list stored for EdgeC3. */
  lemma StoredNeedC3()
    ensures Stored(EdgeC3()).need == ["issue_method", "rejecting_date", "planned_receiving_date"]
  {
    assert EdgeC3().need == NeedList([NeedName("issue_method"), NeedName("rejecting_date"), NeedName("planned_receiving_date")]);
    assert NormaliseNeed(NeedList([NeedName("issue_method"), NeedName("rejecting_date"), NeedName("planned_receiving_date")])) == ["issue_method", "rejecting_date", "planned_receiving_date"];
  }

  /** The table holds EdgeC3 under its pair. */
  lemma DeclaredC3()
    ensures Declaration((Some("pending"), "processing")) == EdgeC3()
  {
    assert Declaration((Some("pending"), "processing")) == DeclarationFrom("pending", "processing");
  }

  /** pending → rejecting. */
  lemma PendingToRejectingRow()
    ensures var e := Edge((Some("pending"), "rejecting"));
      e.check == Some(Pred(Rejected)) && e.raise == Some(GuardErrorClass("PendingRejecting")) && e.need == ["rejecting_date", "planned_rejecting_finish_date"] && e.after == None
      && e.assigns == Some(SetC4())
  {
    DeclaredC4();
    StoredNeedC4();
    assert (Some("pending"), "rejecting") in SupportedPairs;
  }

  /** The `need` list stored for EdgeC4. */
  lemma StoredNeedC4()
    ensures Stored(EdgeC4()).need == ["rejecting_date", "planned_rejecting_finish_date"]
  {
    assert EdgeC4().need == NeedList([NeedName("rejecting_date"), NeedName("planned_rejecting_finish_date")]);
    assert NormaliseNeed(NeedList([NeedName("rejecting_date"), NeedName("planned_rejecting_finish_date")])) == ["rejecting_date", "planned_rejecting_finish_date"];
  }

  /** The table holds EdgeC4 under its pair. */
  lemma DeclaredC4()
    ensures Declaration((Some("pending"), "rejecting")) == EdgeC4()
  {
    assert Declaration((Some("pending"), "rejecting")) == DeclarationFrom("pending", "rejecting");
  }

  /** rejecting → pending. */
  lemma PendingFromRejectingRow()
    ensures var e := Edge((Some("rejecting"), "pending"));
      e.check == None && e.raise == None && e.need == ["planned_rejecting_finish_date"] && e.after == None
      && e.assigns == Some(SetC5())
  {
    DeclaredC5();
    StoredNeedC5();
    assert (Some("rejecting"), "pending") in SupportedPairs;
  }

  /** The `need` list stored for EdgeC5. */
  lemma StoredNeedC5()
    ensures Stored(EdgeC5()).need == ["planned_rejecting_finish_date"]
  {
    assert EdgeC5().need == NeedOne("planned_rejecting_finish_date");
    assert NormaliseNeed(NeedOne("planned_rejecting_finish_date")) == ["planned_rejecting_finish_date"];
  }

  /** The table holds EdgeC5 under its pair. */
  lemma DeclaredC5()
    ensures Declaration((Some("rejecting"), "pending")) == EdgeC5()
  {
    assert Declaration((Some("rejecting"), "pending")) == DeclarationFrom("rejecting", "pending");
  }

  /** pending → closed. */
  lemma PendingToClosedRow()
    ensures var e := Edge((Some("pending"), "closed"));
      e.check == Some(Or(Pred(IssuanceInInstitution), Pred(Rejected))) && e.raise == Some(GuardErrorClass("PendingClosed")) && e.need == ["issue_method", "rejecting_date"] && e.after == None
      && e.assigns == Some(SetC6())
  {
    DeclaredC6();
    StoredNeedC6();
    assert (Some("pending"), "closed") in SupportedPairs;
  }

  /** The `need` list stored for EdgeC6. */
  lemma StoredNeedC6()
    ensures Stored(EdgeC6()).need == ["issue_method", "rejecting_date"]
  {
    assert EdgeC6().need == NeedList([NeedName("issue_method"), NeedName("rejecting_date")]);
    assert NormaliseNeed(NeedList([NeedName("issue_method"), NeedName("rejecting_date")])) == ["issue_method", "rejecting_date"];
  }

  /** The table holds EdgeC6 under its pair. */
  lemma DeclaredC6()
    ensures Declaration((Some("pending"), "closed")) == EdgeC6()
  {
    assert Declaration((Some("pending"), "closed")) == DeclarationFrom("pending", "closed");
  }

  /** processing → issuance. */
  lemma IssuanceRow()
    ensures var e := Edge((Some("processing"), "issuance"));
      e.check == None && e.raise == None && e.need == ["planned_issuance_finish_date"] && e.after == None
      && e.assigns == Some(SetC7())
  {
    DeclaredC7();
    StoredNeedC7();
    assert (Some("processing"), "issuance") in SupportedPairs;
  }

  /** The `need` list stored for EdgeC7. */
  lemma StoredNeedC7()
    ensures Stored(EdgeC7()).need == ["planned_issuance_finish_date"]
  {
    assert EdgeC7().need == NeedOne("planned_issuance_finish_date");
    assert NormaliseNeed(NeedOne("planned_issuance_finish_date")) == ["planned_issuance_finish_date"];
  }

  /** The table holds EdgeC7 under its pair. */
  lemma DeclaredC7()
    ensures Declaration((Some("processing"), "issuance")) == EdgeC7()
  {
    assert Declaration((Some("processing"), "issuance")) == DeclarationFrom("processing", "issuance");
  }

  /** issuance → rejecting. */
  lemma IssuanceToRejectingRow()
    ensures var e := Edge((Some("issuance"), "rejecting"));
      e.check == Some(Not(Pred(CanBeIssued))) && e.raise == Some(GuardErrorClass("IssuanceRejecting")) && e.need == ["planned_rejecting_date", "planned_rejecting_finish_date"] && e.after == None
      && e.assigns == Some(SetC8())
  {
    DeclaredC8();
    StoredNeedC8();
    assert (Some("issuance"), "rejecting") in SupportedPairs;
  }

  /** The `need` list stored for EdgeC8. */
  lemma StoredNeedC8()
    ensures Stored(EdgeC8()).need == ["planned_rejecting_date", "planned_rejecting_finish_date"]
  {
    assert EdgeC8().need == NeedList([NeedName("planned_rejecting_date"), NeedName("planned_rejecting_finish_date")]);
    assert NormaliseNeed(NeedList([NeedName("planned_rejecting_date"), NeedName("planned_rejecting_finish_date")])) == ["planned_rejecting_date", "planned_rejecting_finish_date"];
  }

  /** The table holds EdgeC8 under its pair. */
  lemma DeclaredC8()
    ensures Declaration((Some("issuance"), "rejecting")) == EdgeC8()
  {
    assert Declaration((Some("issuance"), "rejecting")) == DeclarationFrom("issuance", "rejecting");
  }

  /** issuance → closed. */
  lemma IssuanceToClosedRow()
    ensures var e := Edge((Some("issuance"), "closed"));
      e.check == Some(Pred(CanBeIssued)) && e.raise == Some(GuardErrorClass("IssuanceClosed")) && e.need == ["planned_rejecting_date"] && e.after == None
      && e.assigns == Some(SetC6())
  {
    DeclaredC9();
    StoredNeedC9();
    assert (Some("issuance"), "closed") in SupportedPairs;
  }

  /** The `need` list stored for EdgeC9. */
  lemma StoredNeedC9()
    ensures Stored(EdgeC9()).need == ["planned_rejecting_date"]
  {
    assert EdgeC9().need == NeedOne("planned_rejecting_date");
    assert NormaliseNeed(NeedOne("planned_rejecting_date")) == ["planned_rejecting_date"];
  }

  /** The table holds EdgeC9 under its pair. */
  lemma DeclaredC9()
    ensures Declaration((Some("issuance"), "closed")) == EdgeC9()
  {
    assert Declaration((Some("issuance"), "closed")) == DeclarationFrom("issuance", "closed");
  }


  // The guards of the table, with the snapshot the handler read and the
  // date of the run: when each guarded transition passes and what it
  // raises otherwise.

  /** pending → packaging passes exactly when the case is not rejected. */
  lemma PackagingGuard(attrs: Snapshot, today: Date)
    ensures InvokeCheck(Edge((Some("pending"), "packaging")), attrs, HoldsAt(attrs, today))
         == if !IsRejected(attrs) then Pass else Fail(GuardRejected(GuardErrorClass("PendingPackaging")))
  {
    PackagingRow();
    NotPredGuard(Edge((Some("pending"), "packaging")), Rejected, attrs, HoldsAt(attrs, today));
  }

  /**
   * pending → processing passes exactly when the result is not issued in
   * the institution and the case is not rejected.
   */
  lemma ProcessingGuard(attrs: Snapshot, today: Date)
    ensures InvokeCheck(Edge((Some("pending"), "processing")), attrs, HoldsAt(attrs, today))
         == if !InInstitution(attrs) && !IsRejected(attrs) then Pass else Fail(GuardRejected(GuardErrorClass("PendingProcessing")))
  {
    ProcessingRow();
    NeitherPredGuard(Edge((Some("pending"), "processing")), IssuanceInInstitution, Rejected, attrs, HoldsAt(attrs, today));
  }

  /** pending → rejecting passes exactly when the case is rejected. */
  lemma PendingToRejectingGuard(attrs: Snapshot, today: Date)
    ensures InvokeCheck(Edge((Some("pending"), "rejecting")), attrs, HoldsAt(attrs, today))
         == if IsRejected(attrs) then Pass else Fail(GuardRejected(GuardErrorClass("PendingRejecting")))
  {
    PendingToRejectingRow();
    PredGuard(Edge((Some("pending"), "rejecting")), Rejected, attrs, HoldsAt(attrs, today));
  }

  /**
   * pending → closed passes exactly when the result is issued in the
   * institution or the case is rejected.
   */
  lemma PendingToClosedGuard(attrs: Snapshot, today: Date)
    ensures InvokeCheck(Edge((Some("pending"), "closed")), attrs, HoldsAt(attrs, today))
         == if InInstitution(attrs) || IsRejected(attrs) then Pass else Fail(GuardRejected(GuardErrorClass("PendingClosed")))
  {
    PendingToClosedRow();
    EitherPredGuard(Edge((Some("pending"), "closed")), IssuanceInInstitution, Rejected, attrs, HoldsAt(attrs, today));
  }

  /** issuance → rejecting passes exactly when the result can no longer be issued. */
  lemma IssuanceToRejectingGuard(attrs: Snapshot, today: Date)
    ensures InvokeCheck(Edge((Some("issuance"), "rejecting")), attrs, HoldsAt(attrs, today))
         == if !Issuable(attrs, today) then Pass else Fail(GuardRejected(GuardErrorClass("IssuanceRejecting")))
  {
    IssuanceToRejectingRow();
    NotPredGuard(Edge((Some("issuance"), "rejecting")), CanBeIssued, attrs, HoldsAt(attrs, today));
  }

  /** issuance → closed passes exactly when the result can still be issued. */
  lemma IssuanceToClosedGuard(attrs: Snapshot, today: Date)
    ensures InvokeCheck(Edge((Some("issuance"), "closed")), attrs, HoldsAt(attrs, today))
         == if Issuable(attrs, today) then Pass else Fail(GuardRejected(GuardErrorClass("IssuanceClosed")))
  {
    IssuanceToClosedRow();
    PredGuard(Edge((Some("issuance"), "closed")), CanBeIssued, attrs, HoldsAt(attrs, today));
  }

  // The guarded alternatives out of one state split every snapshot between
  // them: exactly one of each pair passes.

  /** Out of `pending`, exactly one of packaging and rejecting passes. */
  lemma PackagingOrRejecting(attrs: Snapshot, today: Date)
    ensures InvokeCheck(Edge((Some("pending"), "packaging")), attrs, HoldsAt(attrs, today)).Pass?
        != InvokeCheck(Edge((Some("pending"), "rejecting")), attrs, HoldsAt(attrs, today)).Pass?
  {
    PackagingGuard(attrs, today);
    PendingToRejectingGuard(attrs, today);
  }

  /** Out of `pending`, exactly one of processing and closed passes. */
  lemma ProcessingOrClosed(attrs: Snapshot, today: Date)
    ensures InvokeCheck(Edge((Some("pending"), "processing")), attrs, HoldsAt(attrs, today)).Pass?
        != InvokeCheck(Edge((Some("pending"), "closed")), attrs, HoldsAt(attrs, today)).Pass?
  {
    ProcessingGuard(attrs, today);
    PendingToClosedGuard(attrs, today);
  }

  /** Out of `issuance`, exactly one of rejecting and closed passes. */
  lemma RejectingOrClosed(attrs: Snapshot, today: Date)
    ensures InvokeCheck(Edge((Some("issuance"), "rejecting")), attrs, HoldsAt(attrs, today)).Pass?
        != InvokeCheck(Edge((Some("issuance"), "closed")), attrs, HoldsAt(attrs, today)).Pass?
  {
    IssuanceToRejectingGuard(attrs, today);
    IssuanceToClosedGuard(attrs, today);
  }

  // What each transition writes besides `state`, for a handler `h` and the
  // clock reading `now`. A literal status is written as given unless
  // `params` has a key spelled like it.

  /**
   * nil → smev_sending: the creation date from the clock, the case id and
   * the SMEV sending status, and nothing else.
   */
  lemma SmevSendingWrites(h: Handler, now: string)
    requires StatusSmevSending !in h.params
    ensures var w := Writes((None, "smev_sending"), h, now);
      w == map["case_creation_date" := Some(now), "case_id" := Some(h.record.id), "case_status" := Some(StatusSmevSending)]
  {
    SmevSendingRow();
    SetAResolves(h, now);
  }

  lemma SetAResolves(h: Handler, now: string)
    requires StatusSmevSending !in h.params
    ensures var w := NewCaseAttributes(Some(SetA()), Accessor(h, now), h.params);
      w == map["case_creation_date" := Some(now), "case_id" := Some(h.record.id), "case_status" := Some(StatusSmevSending)]
  {
    StatusesAreNotReaders();
    StatusResolves(h, now, StatusSmevSending);
    NowResolves(h, now);
    BoundExactly("case_creation_date", DSym("now"), "case_id", DSym("case_id"), "case_status", DStr(StatusSmevSending),
      Accessor(h, now), h.params);
  }

  /**
   * packaging → pending: the pending status, the sending date, the planned
   * sending date as the planned finish date, and each register attribute
   * the request parameters carry.
   */
  lemma PendingFromPackagingWrites(h: Handler, now: string)
    requires StatusPending !in h.params
    ensures var w := Writes((Some("packaging"), "pending"), h, now);
      && "case_status" in w && w["case_status"] == Some(StatusPending)
      && "pending_register_sending_date" in w && w["pending_register_sending_date"] == Some(now)
      && "planned_finish_date" in w && w["planned_finish_date"] == Lookup(h.attrs, "planned_sending_date")
      && forall i :: 0 <= i < |PendingRegisterFields| ==> var n := PendingRegisterFields[i];
        (n in w <==> n in h.params) && (n in w ==> w[n] == h.params[n])
  {
    PendingFromPackagingRow();
    SetC1Resolves(h, now);
  }

  lemma SetC1Resolves(h: Handler, now: string)
    requires StatusPending !in h.params
    ensures var w := NewCaseAttributes(Some(SetC1()), Accessor(h, now), h.params);
      && "case_status" in w && w["case_status"] == Some(StatusPending)
      && "pending_register_sending_date" in w && w["pending_register_sending_date"] == Some(now)
      && "planned_finish_date" in w && w["planned_finish_date"] == Lookup(h.attrs, "planned_sending_date")
      && forall i :: 0 <= i < |PendingRegisterFields| ==> var n := PendingRegisterFields[i];
        (n in w <==> n in h.params) && (n in w ==> w[n] == h.params[n])
  {
    RegisterFieldsNotRead(h, now);
    RegisterFieldsExclude();
    StatusesAreNotReaders();
    StatusResolves(h, now, StatusPending);
    NowResolves(h, now);
    PlannedResolves(h, now, "planned_sending_date");
    FromParamsWithTheSameNamesCopies(PendingRegisterFields);
    CopiedThenBound(FromParamsWithTheSameNames(PendingRegisterFields), PendingRegisterFields,
      "case_status", DStr(StatusPending), "pending_register_sending_date", DSym("now"),
      "planned_finish_date", DSym("planned_sending_date"), Accessor(h, now), h.params);
  }

  /**
   * pending → packaging: the packaging status, the planned sending date as
   * the planned finish date, and every register attribute and the sending
   * date cleared.
   */
  lemma PackagingWrites(h: Handler, now: string)
    requires StatusPackaging !in h.params
    ensures var w := Writes((Some("pending"), "packaging"), h, now);
      && "case_status" in w && w["case_status"] == Some(StatusPackaging)
      && "pending_register_sending_date" in w && w["pending_register_sending_date"] == None
      && "planned_finish_date" in w && w["planned_finish_date"] == Lookup(h.attrs, "planned_sending_date")
      && forall i :: 0 <= i < |PendingRegisterFields| ==> PendingRegisterFields[i] in w && w[PendingRegisterFields[i]] == None
  {
    PackagingRow();
    SetC2Resolves(h, now);
  }

  lemma SetC2Resolves(h: Handler, now: string)
    requires StatusPackaging !in h.params
    ensures var w := NewCaseAttributes(Some(SetC2()), Accessor(h, now), h.params);
      && "case_status" in w && w["case_status"] == Some(StatusPackaging)
      && "pending_register_sending_date" in w && w["pending_register_sending_date"] == None
      && "planned_finish_date" in w && w["planned_finish_date"] == Lookup(h.attrs, "planned_sending_date")
      && forall i :: 0 <= i < |PendingRegisterFields| ==> PendingRegisterFields[i] in w && w[PendingRegisterFields[i]] == None
  {
    RegisterFieldsExclude();
    StatusesAreNotReaders();
    StatusResolves(h, now, StatusPackaging);
    PlannedResolves(h, now, "planned_sending_date");
    BlankWithExtra(PendingRegisterFields, "pending_register_sending_date");
    BlankedThenBound(ChangeStateToDsl.Blank(PendingRegisterFields + ["pending_register_sending_date"]), PendingRegisterFields, "pending_register_sending_date",
      "case_status", DStr(StatusPackaging), "planned_finish_date", DSym("planned_sending_date"), Accessor(h, now), h.params);
  }

  /**
   * pending → processing: the processing status, the sending date, the
   * planned receiving date as the planned finish date, and each
   * `processing_*` attribute the request parameters carry.
   */
  lemma ProcessingWrites(h: Handler, now: string)
    requires StatusProcessing !in h.params
    ensures var w := Writes((Some("pending"), "processing"), h, now);
      && "case_status" in w && w["case_status"] == Some(StatusProcessing)
      && "processing_sending_date" in w && w["processing_sending_date"] == Some(now)
      && "planned_finish_date" in w && w["planned_finish_date"] == Lookup(h.attrs, "planned_receiving_date")
      && forall i :: 0 <= i < |ProcessingFields| ==> var n := ProcessingFields[i];
        (n in w <==> n in h.params) && (n in w ==> w[n] == h.params[n])
  {
    ProcessingRow();
    SetC3Resolves(h, now);
  }

  lemma SetC3Resolves(h: Handler, now: string)
    requires StatusProcessing !in h.params
    ensures var w := NewCaseAttributes(Some(SetC3()), Accessor(h, now), h.params);
      && "case_status" in w && w["case_status"] == Some(StatusProcessing)
      && "processing_sending_date" in w && w["processing_sending_date"] == Some(now)
      && "planned_finish_date" in w && w["planned_finish_date"] == Lookup(h.attrs, "planned_receiving_date")
      && forall i :: 0 <= i < |ProcessingFields| ==> var n := ProcessingFields[i];
        (n in w <==> n in h.params) && (n in w ==> w[n] == h.params[n])
  {
    ProcessingFieldsNotRead(h, now);
    ProcessingFieldsExclude();
    StatusesAreNotReaders();
    StatusResolves(h, now, StatusProcessing);
    NowResolves(h, now);
    PlannedResolves(h, now, "planned_receiving_date");
    FromParamsWithTheSameNamesCopies(ProcessingFields);
    CopiedThenBound(FromParamsWithTheSameNames(ProcessingFields), ProcessingFields,
      "case_status", DStr(StatusProcessing), "processing_sending_date", DSym("now"),
      "planned_finish_date", DSym("planned_receiving_date"), Accessor(h, now), h.params);
  }

  /**
   * pending → rejecting: the rejecting status, the planned rejecting finish
   * date as the planned finish date, and every rejecting register attribute
   * and its sending date cleared.
   */
  lemma PendingToRejectingWrites(h: Handler, now: string)
    requires StatusRejecting !in h.params
    ensures var w := Writes((Some("pending"), "rejecting"), h, now);
      && "case_status" in w && w["case_status"] == Some(StatusRejecting)
      && "pending_rejecting_register_sending_date" in w && w["pending_rejecting_register_sending_date"] == None
      && "planned_finish_date" in w && w["planned_finish_date"] == Lookup(h.attrs, "planned_rejecting_finish_date")
      && forall i :: 0 <= i < |PendingRejectingRegisterFields| ==> PendingRejectingRegisterFields[i] in w && w[PendingRejectingRegisterFields[i]] == None
  {
    PendingToRejectingRow();
    SetC4Resolves(h, now);
  }

  lemma SetC4Resolves(h: Handler, now: string)
    requires StatusRejecting !in h.params
    ensures var w := NewCaseAttributes(Some(SetC4()), Accessor(h, now), h.params);
      && "case_status" in w && w["case_status"] == Some(StatusRejecting)
      && "pending_rejecting_register_sending_date" in w && w["pending_rejecting_register_sending_date"] == None
      && "planned_finish_date" in w && w["planned_finish_date"] == Lookup(h.attrs, "planned_rejecting_finish_date")
      && forall i :: 0 <= i < |PendingRejectingRegisterFields| ==> PendingRejectingRegisterFields[i] in w && w[PendingRejectingRegisterFields[i]] == None
  {
    RejectingRegisterFieldsExclude();
    StatusesAreNotReaders();
    StatusResolves(h, now, StatusRejecting);
    PlannedResolves(h, now, "planned_rejecting_finish_date");
    BlankWithExtra(PendingRejectingRegisterFields, "pending_rejecting_register_sending_date");
    BlankedThenBound(ChangeStateToDsl.Blank(PendingRejectingRegisterFields + ["pending_rejecting_register_sending_date"]), PendingRejectingRegisterFields, "pending_rejecting_register_sending_date",
      "case_status", DStr(StatusRejecting), "planned_finish_date", DSym("planned_rejecting_finish_date"), Accessor(h, now), h.params);
  }

  /**
   * rejecting → pending: the pending status, the sending date, the planned
   * rejecting finish date as the planned finish date, and each rejecting
   * register attribute the request parameters carry.
   */
  lemma PendingFromRejectingWrites(h: Handler, now: string)
    requires StatusPending !in h.params
    ensures var w := Writes((Some("rejecting"), "pending"), h, now);
      && "case_status" in w && w["case_status"] == Some(StatusPending)
      && "pending_rejecting_register_sending_date" in w && w["pending_rejecting_register_sending_date"] == Some(now)
      && "planned_finish_date" in w && w["planned_finish_date"] == Lookup(h.attrs, "planned_rejecting_finish_date")
      && forall i :: 0 <= i < |PendingRejectingRegisterFields| ==> var n := PendingRejectingRegisterFields[i];
        (n in w <==> n in h.params) && (n in w ==> w[n] == h.params[n])
  {
    PendingFromRejectingRow();
    SetC5Resolves(h, now);
  }

  lemma SetC5Resolves(h: Handler, now: string)
    requires StatusPending !in h.params
    ensures var w := NewCaseAttributes(Some(SetC5()), Accessor(h, now), h.params);
      && "case_status" in w && w["case_status"] == Some(StatusPending)
      && "pending_rejecting_register_sending_date" in w && w["pending_rejecting_register_sending_date"] == Some(now)
      && "planned_finish_date" in w && w["planned_finish_date"] == Lookup(h.attrs, "planned_rejecting_finish_date")
      && forall i :: 0 <= i < |PendingRejectingRegisterFields| ==> var n := PendingRejectingRegisterFields[i];
        (n in w <==> n in h.params) && (n in w ==> w[n] == h.params[n])
  {
    RejectingRegisterFieldsNotRead(h, now);
    RejectingRegisterFieldsExclude();
    StatusesAreNotReaders();
    StatusResolves(h, now, StatusPending);
    NowResolves(h, now);
    PlannedResolves(h, now, "planned_rejecting_finish_date");
    FromParamsWithTheSameNamesCopies(PendingRejectingRegisterFields);
    CopiedThenBound(FromParamsWithTheSameNames(PendingRejectingRegisterFields), PendingRejectingRegisterFields,
      "case_status", DStr(StatusPending), "pending_rejecting_register_sending_date", DSym("now"),
      "planned_finish_date", DSym("planned_rejecting_finish_date"), Accessor(h, now), h.params);
  }

  /**
   * pending → closed: the closed status, the closing date, no planned finish
   * date, and each `closed_*` attribute the request parameters carry.
   */
  lemma PendingToClosedWrites(h: Handler, now: string)
    requires StatusClosed !in h.params
    ensures var w := Writes((Some("pending"), "closed"), h, now);
      && "case_status" in w && w["case_status"] == Some(StatusClosed)
      && "closed_date" in w && w["closed_date"] == Some(now)
      && "planned_finish_date" in w && w["planned_finish_date"] == None
      && forall i :: 0 <= i < |ClosedFields| ==> var n := ClosedFields[i];
        (n in w <==> n in h.params) && (n in w ==> w[n] == h.params[n])
  {
    PendingToClosedRow();
    SetC6Resolves(h, now);
  }

  lemma SetC6Resolves(h: Handler, now: string)
    requires StatusClosed !in h.params
    ensures var w := NewCaseAttributes(Some(SetC6()), Accessor(h, now), h.params);
      && "case_status" in w && w["case_status"] == Some(StatusClosed)
      && "closed_date" in w && w["closed_date"] == Some(now)
      && "planned_finish_date" in w && w["planned_finish_date"] == None
      && forall i :: 0 <= i < |ClosedFields| ==> var n := ClosedFields[i];
        (n in w <==> n in h.params) && (n in w ==> w[n] == h.params[n])
  {
    ClosedFieldsNotRead(h, now);
    ClosedFieldsExclude();
    StatusesAreNotReaders();
    StatusResolves(h, now, StatusClosed);
    NowResolves(h, now);
    FromParamsWithTheSameNamesCopies(ClosedFields);
    CopiedThenBound(FromParamsWithTheSameNames(ClosedFields), ClosedFields,
      "case_status", DStr(StatusClosed), "closed_date", DSym("now"),
      "planned_finish_date", DNil, Accessor(h, now), h.params);
  }

  /**
   * processing → issuance: the issuance status, the receiving date, the
   * planned issuance finish date as the planned finish date, and each
   * `issuance_*` attribute and `result_id` the request parameters carry.
   */
  lemma IssuanceWrites(h: Handler, now: string)
    requires StatusIssuance !in h.params
    ensures var w := Writes((Some("processing"), "issuance"), h, now);
      && "case_status" in w && w["case_status"] == Some(StatusIssuance)
      && "issuance_receiving_date" in w && w["issuance_receiving_date"] == Some(now)
      && "planned_finish_date" in w && w["planned_finish_date"] == Lookup(h.attrs, "planned_issuance_finish_date")
      && forall i :: 0 <= i < |IssuanceFields| ==> var n := IssuanceFields[i];
        (n in w <==> n in h.params) && (n in w ==> w[n] == h.params[n])
  {
    IssuanceRow();
    SetC7Resolves(h, now);
  }

  lemma SetC7Resolves(h: Handler, now: string)
    requires StatusIssuance !in h.params
    ensures var w := NewCaseAttributes(Some(SetC7()), Accessor(h, now), h.params);
      && "case_status" in w && w["case_status"] == Some(StatusIssuance)
      && "issuance_receiving_date" in w && w["issuance_receiving_date"] == Some(now)
      && "planned_finish_date" in w && w["planned_finish_date"] == Lookup(h.attrs, "planned_issuance_finish_date")
      && forall i :: 0 <= i < |IssuanceFields| ==> var n := IssuanceFields[i];
        (n in w <==> n in h.params) && (n in w ==> w[n] == h.params[n])
  {
    IssuanceFieldsNotRead(h, now);
    IssuanceFieldsExclude();
    StatusesAreNotReaders();
    StatusResolves(h, now, StatusIssuance);
    NowResolves(h, now);
    PlannedResolves(h, now, "planned_issuance_finish_date");
    FromParamsWithTheSameNamesCopies(IssuanceFields);
    CopiedThenBound(FromParamsWithTheSameNames(IssuanceFields), IssuanceFields,
      "case_status", DStr(StatusIssuance), "issuance_receiving_date", DSym("now"),
      "planned_finish_date", DSym("planned_issuance_finish_date"), Accessor(h, now), h.params);
  }

  /**
   * issuance → rejecting: the rejecting status, the rejecting date and the
   * planned rejecting finish date as the planned finish date, and nothing else.
   */
  lemma IssuanceToRejectingWrites(h: Handler, now: string)
    requires StatusRejecting !in h.params
    ensures var w := Writes((Some("issuance"), "rejecting"), h, now);
      w == map["case_status" := Some(StatusRejecting), "rejecting_date" := Some(now),
               "planned_finish_date" := Lookup(h.attrs, "planned_rejecting_finish_date")]
  {
    IssuanceToRejectingRow();
    SetC8Resolves(h, now);
  }

  lemma SetC8Resolves(h: Handler, now: string)
    requires StatusRejecting !in h.params
    ensures var w := NewCaseAttributes(Some(SetC8()), Accessor(h, now), h.params);
      w == map["case_status" := Some(StatusRejecting), "rejecting_date" := Some(now),
               "planned_finish_date" := Lookup(h.attrs, "planned_rejecting_finish_date")]
  {
    StatusesAreNotReaders();
    StatusResolves(h, now, StatusRejecting);
    NowResolves(h, now);
    PlannedResolves(h, now, "planned_rejecting_finish_date");
    BoundExactly("case_status", DStr(StatusRejecting), "rejecting_date", DSym("now"),
      "planned_finish_date", DSym("planned_rejecting_finish_date"), Accessor(h, now), h.params);
  }

  /**
   * issuance → closed: the same writes as pending → closed.
   */
  lemma IssuanceToClosedWrites(h: Handler, now: string)
    requires StatusClosed !in h.params
    ensures var w := Writes((Some("issuance"), "closed"), h, now);
      && "case_status" in w && w["case_status"] == Some(StatusClosed)
      && "closed_date" in w && w["closed_date"] == Some(now)
      && "planned_finish_date" in w && w["planned_finish_date"] == None
      && forall i :: 0 <= i < |ClosedFields| ==> var n := ClosedFields[i];
        (n in w <==> n in h.params) && (n in w ==> w[n] == h.params[n])
  {
    IssuanceToClosedRow();
    SetC6Resolves(h, now);
  }

  /** No handler method answers to a `pending_register_*` name. */
  lemma RegisterFieldsNotRead(h: Handler, now: string)
    ensures forall i :: 0 <= i < |PendingRegisterFields| ==> Accessor(h, now)(PendingRegisterFields[i]).None?
  {
    PrefixedNotReader("pending_register_", RegisterSuffixes, h, now);
  }

  /** No handler method answers to a `pending_rejecting_register_*` name. */
  lemma RejectingRegisterFieldsNotRead(h: Handler, now: string)
    ensures forall i :: 0 <= i < |PendingRejectingRegisterFields| ==> Accessor(h, now)(PendingRejectingRegisterFields[i]).None?
  {
    PrefixedNotReader("pending_rejecting_register_", RegisterSuffixes, h, now);
  }

  /** No handler method answers to a `processing_*` name. */
  lemma ProcessingFieldsNotRead(h: Handler, now: string)
    ensures forall i :: 0 <= i < |ProcessingFields| ==> Accessor(h, now)(ProcessingFields[i]).None?
  {
    PrefixedNotReader("processing_", MfcSuffixes, h, now);
  }

  /** No handler method answers to a `closed_*` name. */
  lemma ClosedFieldsNotRead(h: Handler, now: string)
    ensures forall i :: 0 <= i < |ClosedFields| ==> Accessor(h, now)(ClosedFields[i]).None?
  {
    PrefixedNotReader("closed_", MfcSuffixes, h, now);
  }

  /** No handler method answers to an `issuance_*` name or to `result_id`. */
  lemma IssuanceFieldsNotRead(h: Handler, now: string)
    ensures forall i :: 0 <= i < |IssuanceFields| ==> Accessor(h, now)(IssuanceFields[i]).None?
  {
    PrefixedNotReader("issuance_", MfcSuffixes, h, now);
    assert "result_id" !in PlannedDateReaders by {
      forall j | 0 <= j < |PlannedDateReaders|
        ensures PlannedDateReaders[j] != "result_id"
      {
        assert PlannedDateReaders[j][0] == 'p';
      }
    }
  }

  /** The literal names of the packaging edges are not register names. */
  lemma RegisterFieldsExclude()
    ensures "case_status" !in PendingRegisterFields && "pending_register_sending_date" !in PendingRegisterFields && "planned_finish_date" !in PendingRegisterFields
  {
    NotPrefixAt("pending_register_", "case_status", 0);
    PrefixedExcludes("pending_register_", RegisterSuffixes, "case_status");
    PrefixedExcludesSuffix("pending_register_", RegisterSuffixes, "sending_date");
    NotPrefixAt("pending_register_", "planned_finish_date", 1);
    PrefixedExcludes("pending_register_", RegisterSuffixes, "planned_finish_date");
  }

  /** The literal names of the rejecting edges are not rejecting register names. */
  lemma RejectingRegisterFieldsExclude()
    ensures "case_status" !in PendingRejectingRegisterFields && "pending_rejecting_register_sending_date" !in PendingRejectingRegisterFields && "planned_finish_date" !in PendingRejectingRegisterFields
  {
    NotPrefixAt("pending_rejecting_register_", "case_status", 0);
    PrefixedExcludes("pending_rejecting_register_", RegisterSuffixes, "case_status");
    PrefixedExcludesSuffix("pending_rejecting_register_", RegisterSuffixes, "sending_date");
    NotPrefixAt("pending_rejecting_register_", "planned_finish_date", 1);
    PrefixedExcludes("pending_rejecting_register_", RegisterSuffixes, "planned_finish_date");
  }

  /** The literal names of pending → processing are not `processing_*` field names. */
  lemma ProcessingFieldsExclude()
    ensures "case_status" !in ProcessingFields && "processing_sending_date" !in ProcessingFields && "planned_finish_date" !in ProcessingFields
  {
    NotPrefixAt("processing_", "case_status", 0);
    PrefixedExcludes("processing_", MfcSuffixes, "case_status");
    PrefixedExcludesSuffix("processing_", MfcSuffixes, "sending_date");
    NotPrefixAt("processing_", "planned_finish_date", 1);
    PrefixedExcludes("processing_", MfcSuffixes, "planned_finish_date");
  }

  /** The literal names of the closing edges are not `closed_*` field names. */
  lemma ClosedFieldsExclude()
    ensures "case_status" !in ClosedFields && "closed_date" !in ClosedFields && "planned_finish_date" !in ClosedFields
  {
    NotPrefixAt("closed_", "case_status", 1);
    PrefixedExcludes("closed_", MfcSuffixes, "case_status");
    PrefixedExcludesSuffix("closed_", MfcSuffixes, "date");
    NotPrefixAt("closed_", "planned_finish_date", 0);
    PrefixedExcludes("closed_", MfcSuffixes, "planned_finish_date");
  }

  /** The literal names of processing → issuance are not issuance field names. */
  lemma IssuanceFieldsExclude()
    ensures "case_status" !in IssuanceFields && "issuance_receiving_date" !in IssuanceFields && "planned_finish_date" !in IssuanceFields
  {
    NotPrefixAt("issuance_", "case_status", 0);
    PrefixedExcludes("issuance_", MfcSuffixes, "case_status");
    PrefixedExcludesSuffix("issuance_", MfcSuffixes, "receiving_date");
    NotPrefixAt("issuance_", "planned_finish_date", 0);
    PrefixedExcludes("issuance_", MfcSuffixes, "planned_finish_date");
  }
}
