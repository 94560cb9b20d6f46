# sd_full_auto_case, modelled in Dafny

`SDFullAutoCase` is a business-logic module of a case-processing service. It drives a case
(an application filed at an MFC office) through the interdepartmental request workflow:

- **State-driven engine** (`Base::StateDrivenFSA`). It is instantiated by `ChangeStateTo`. An
  explicit request "move this case to state X" is accepted only along a declared edge
  `(current state, X)`. The edge's guard may refuse the move. Otherwise the edge's `set` hash is
  resolved against the handler's readers and the call parameters, the case attributes are
  written, and the edge's `after` callback runs.
- **Message-driven engine** (`Base::MessageDrivenFSA`). It is instantiated by
  `RespondToMessage`. A STOMP reply to an interdepartmental request is parsed and validated
  against the response schema. The engine then finds the request by the reply's id and finds its
  case. It picks the first edge of the control pair `(case state, reply format)` whose `if`
  holds. It stores the attached output files as documents, records the reply on the request,
  writes the case attributes and runs the callback.
- **`Request::Create` and `Request::Repeat`**. `Request::Create` creates a request record and
  publishes it to the outgoing queue. `Request::Repeat` schedules a new `Create` after
  `WAIT_TIME`, while the case has not collected too many EXCEPTION replies. `Repeater` does this
  for every case in state `error` when the module loads.
- **`Rejector`**. It is a daily sweep: every case in `issuance` whose planned rejecting date is
  before today is closed or moved to `rejecting`, depending on its `close_on_reject` mark.
- **The entry points** in `lib/sd_full_auto_case.rb`. `on_load` and `on_unload` manage the
  scheduler. `on_case_creation` and `change_state_to` call the state-driven engine.
  `on_responding_stomp_message` turns any exception into `false`.

### How the model is built

Each Ruby file is one Dafny module:

- **Values.** A Ruby value stored in a case or request attribute is an `Option<string>`, with
  `None` for `nil`. An attribute hash is a `map`.
- **Guards.** The `check`/`if` lambdas are a small expression language (`Guards.Expr`). It is
  evaluated to a Ruby value, so "blocks only on literal `false`" and "truthy" stay distinct.
- **Readers.** Method dispatch on the handler (`respond_to?` followed by `send`) is an accessor
  function from a name to an optional value.
- **Stores.** The service's stores are classes whose methods change their fields: cases, requests,
  documents and files, the STOMP broker, and the scheduler. They follow the store fakes under
  `spec/support/case_core`.
- **Engines.** Each engine is a pure function that selects and computes the change, plus a method
  that performs the change against the stores. The method's `ensures` ties the new state to that
  function.
- **Callbacks.** `after` callbacks are interpreted over a value snapshot of the stores
  (`Callbacks.World`). `Callbacks.RunAfter` performs them on the objects and is proved equal to
  that interpretation.
- **Inputs.** The clock, the current date, fresh message ids, the JSON parser, the file server and
  the Base64 decoder are parameters. The `created_at` stamped on each saved document
  (`Time.now.to_s` in `document_params`) is a parameter `createdAt` of its own, separate from the
  handler's `now`.

### Where the code and its documentation disagree (the code is followed)

- **`invoke_check` with no `raise` class.** When a guard returns `false` and the edge names no
  `raise` class, the code evaluates `nil < RuntimeError`. That raises `NoMethodError`, so the move
  does not proceed (`StateDrivenFsa.InvokeCheck`).
- **`params` may not be `nil`.** The comments of `SDFullAutoCase.change_state_to` and
  `check_params!` allow `nil`. The check is `params.is_a?(Hash)`, so `nil` is refused with
  `ParamsInvalidClass` (`StateDrivenFsa.New`).
- **A stopped scheduler.** `Scheduler.in`/`cron` on a stopped scheduler calls a method on `nil`.
  The model turns this into a `NoMethod("scheduler")` failure.

### Behaviour of the code that the model exhibits

These are proved as lemmas about the model of the code as written. The engines keep the behaviour
as written.

- **Guards read differently by the two engines**
  (`MessageDrivenFsa.NilGuardPassesCheckButIsNotSelected`). A guard that reads an attribute which
  is `nil` behaves differently in each engine. It does not block a state-driven edge, whose check
  stops only on `false`. It makes a message-driven edge unselectable.
- **B2 and B4 store a name, not a date** (`RespondToMessage.PlannedDatesNotCopied`).
  `planned_finish_date: :planned_sending_date` and `:planned_issuance_finish_date` name methods
  that the message-driven handler does not have. `obtain_value` therefore stores the symbol's
  name, not the case's planned date.
- **The last retry is lost** (`RespondToMessage.RetryLostAtTheLimit`). `repeat?` is
  `exceptions_count <= MAX_EXCEPTIONS_COUNT`. It is read by B1's guard before the reply is
  recorded, and by `Request::Repeat` after the reply is recorded. With exactly
  `MAX_EXCEPTIONS_COUNT` EXCEPTION replies on record, B1 moves the case to `error`, but no retry
  is scheduled. The case stays in `error` until the next load's `Repeater` sweep, which also
  schedules nothing.

## Model

| member | source | states |
|---|---|---|
| Values.Downcase | lib/sd_full_auto_case/base/message_driven_fsa.rb:117 | `String#downcase` keeps the length and lowers each ASCII letter in place |
| Values.CaseEqualSymmetric | lib/sd_full_auto_case/change_state_to.rb:306-310 | `casecmp?` is symmetric |
| Values.ParseDate | lib/sd_full_auto_case/change_state_to.rb:326-330 | a parsed `YYYY-MM-DD` prefix is a valid calendar date |
| Guards.BooleanGuardYieldsBoolean | lib/sd_full_auto_case/base/state_driven_fsa.rb:142-150 | a guard built from predicates and boolean operators evaluates to `true`/`false`, exactly as its truth value |
| Guards.NilReadIsFalsyButNotFalse | lib/sd_full_auto_case/base/message_driven_fsa.rb:160-165 | a bare read of a nil attribute is not `false` (a check does not block on it) yet is not truthy (an `if` does not select on it) |
| EdgeOptions.ItemNames | lib/sd_full_auto_case/base/state_driven_fsa/edge_info.rb:65 | the string items of a `need` list, in order, and only they |
| EdgeOptions.NormaliseNeed | lib/sd_full_auto_case/base/state_driven_fsa/edge_info.rb:65 | `Array(need).map(&:to_s)`: absent gives `[]`, a string gives a one-element list, a valid list gives its names in order |
| StateDrivenEdgeInfo.New | lib/sd_full_auto_case/base/state_driven_fsa/edge_info.rb:59-99 | the options are accepted exactly when they match `OPTIONS_SCHEMA` (`set` a hash of nil/string, `need` a string or list of strings), else `ValidationError`; an accepted edge keeps `check`, `raise`, `after`, `set` and the names of `need`, in their order: none, the one string, or the list element by element |
| MessageDrivenEdgeInfo.StateName | lib/sd_full_auto_case/base/message_driven_fsa/edge_info.rb:55 | `options[:state].to_s`: nil gives the empty string, a string itself |
| MessageDrivenEdgeInfo.New | lib/sd_full_auto_case/base/message_driven_fsa/edge_info.rb:50-90 | accepted exactly when the options match the schema, else `ValidationError`; keeps `if`, `after`, `set`, the state as a string and the `need` names in order |
| ChangeStateToDsl.FromParamsWithTheSameNamesCopies | lib/sd_full_auto_case/change_state_to/dsl.rb:13-15 | every listed name, and only those, maps to the symbol of the same name |
| ChangeStateToDsl.BlankClears | lib/sd_full_auto_case/change_state_to/dsl.rb:19-21 | every listed name, and only those, maps to nil |
| ChangeStateToDsl.BlankWithExtra | lib/sd_full_auto_case/change_state_to/dsl.rb:19-21 | `blank(*keys, extra)` clears the extra key as well as every listed one |
| ChangeStateToDsl.CardinalityBound | lib/sd_full_auto_case/change_state_to/dsl.rb:13-21 | a hash built from a name list has at most as many keys as the list has names |
| CaseStore.UpdateEffect | spec/support/case_core/actions/cases.rb:11-22 | `Cases.update` gives every listed case each new attribute value, leaves its other attributes and every unlisted case as they were |
| CaseStore.UpdateEffectAt | spec/support/case_core/actions/cases.rb:11-22 | a listed case's attributes become the old ones overridden by the changes; unlisted cases are unchanged |
| CaseStore.UpdateNoIds | spec/support/case_core/actions/cases.rb:11-22 | an update with an empty id list changes nothing |
| CaseStore.Cases.Update | spec/support/case_core/actions/cases.rb:11-22 | the case records stay; the attribute store becomes the updated store |
| CaseStore.ShowAttributes | spec/support/case_core/actions/cases.rb:29-36 | exactly the case's attributes whose names are requested (all of them when no names are given), with their values |
| CaseStore.FindCase | lib/sd_full_auto_case/base/message_driven_fsa/helpers.rb:34-38 | a found case record is in the store with that id; none is found only when no record has the id |
| CaseStore.IssuanceEntries | spec/support/case_core/actions/cases.rb:65-74 | every entry is an `issuance` case whose planned rejecting date is at most the bound, with its `close_on_reject`; every such case is listed |
| CaseStore.IndexIssuance | spec/support/case_core/actions/cases.rb:65-74 | the index fails exactly when some case has a nil `planned_rejecting_date` (nil `<=` raises); otherwise it lists exactly the expired `issuance` cases |
| CaseStore.ErrorEntry | spec/support/case_core/actions/cases.rb:84-88 | an `error` case's entry: its `id`, plus its `special_data` and `service_id` when present, and nothing else |
| CaseStore.IndexError | spec/support/case_core/actions/cases.rb:80-89 | every entry belongs to a case in state `error` with its entry; every case in `error` is listed |
| RequestStore.AttributeRecords | spec/support/case_core/actions/requests.rb:14-23 | the attribute rows of a request are its fields except `id`, `case_id` and `created_at` |
| RequestStore.Without | spec/support/case_core/actions/requests.rb:43-49 | dropping a request's attribute rows keeps exactly the rows of other requests |
| RequestStore.FindRecord | spec/support/case_core/actions/requests.rb:56-64 | a request record is found by id exactly when one has that id |
| RequestStore.FirstAttribute | spec/support/case_core/actions/requests.rb:33-38 | the first attribute row with the name and value, or none when no row has them |
| RequestStore.Find | spec/support/case_core/actions/requests.rb:33-38 | a found request has an attribute row with that name and value; with no such row nothing is found |
| RequestStore.AttributeMapNames | spec/support/case_core/actions/requests.rb:56-64 | a request's attribute hash has exactly the names of its rows |
| RequestStore.Show | spec/support/case_core/actions/requests.rb:56-64 | a request is shown exactly when its record exists, with its attribute hash |
| RequestStore.CountExceptions | spec/support/case_core/actions/requests.rb:71-80 | the count of a case's requests whose `response_format` is `EXCEPTION` is at most the number of requests |
| RequestStore.AttributeMapAppend | spec/support/case_core/actions/requests.rb:56-64 | later rows override earlier ones in a request's attribute hash |
| RequestStore.UpdatedAttributeMapOwn | spec/support/case_core/actions/requests.rb:43-49 | after an update a request's attribute hash is made of the new fields only |
| RequestStore.UpdatedAttributeMapOther | spec/support/case_core/actions/requests.rb:43-49 | an update leaves every other request's attribute hash unchanged |
| RequestStore.CountOneMoreException | spec/support/case_core/actions/requests.rb:71-80 | one more request of the case turning into an EXCEPTION raises the count by exactly one |
| RequestStore.CountUnchanged | spec/support/case_core/actions/requests.rb:71-80 | the count is unchanged when no request changes its EXCEPTION status |
| RequestStore.ReplacedByException | spec/support/case_core/actions/requests.rb:43-80 | recording an EXCEPTION on a non-EXCEPTION request of the case raises the case's count by one |
| RequestStore.Requests.Create | spec/support/case_core/actions/requests.rb:14-23 | appends a record with a fresh id for the case and the fields' attribute rows; the store stays well formed |
| RequestStore.Requests.Update | spec/support/case_core/actions/requests.rb:43-49 | the request's attribute rows are replaced by the new fields; records and ids stay |
| Documents.Store.CreateFile | spec/support/case_core/actions/files.rb:14-19 | appends a file with a fresh id and the body; documents stay |
| Documents.Store.CreateDocument | spec/support/case_core/actions/documents.rb:13-15 | appends the document; files stay |
| Outbox.Broker.Publish | lib/sd_full_auto_case/request/create.rb:43-47 | the message is appended to the queue's publications |
| Scheduling.Scheduler.Launch | lib/sd_full_auto_case/scheduler.rb:10-13 | a running scheduler with no jobs |
| Scheduling.Scheduler.Stop | lib/sd_full_auto_case/scheduler.rb:16-19 | the scheduler is dropped with its jobs |
| Scheduling.Scheduler.In | lib/sd_full_auto_case/scheduler.rb:25-27 | a running scheduler gets one delayed job; a stopped one raises and is unchanged |
| Scheduling.Scheduler.Cron | lib/sd_full_auto_case/scheduler.rb:32-34 | a running scheduler gets one recurring job; a stopped one raises and is unchanged |
| RequestCreate.MessageData | lib/sd_full_auto_case/request/create.rb:57-63 | the message goes to `RESPONSE_QUEUE_NAME` with the request's id and exactly the forwarded case attributes |
| RequestCreate.Create | lib/sd_full_auto_case/request/create.rb:28-47 | one request record with its `message_id` is created for the case and the message is published to `QUEUE_NAME` |
| RequestCreate.CreatedRequestIsFound | lib/sd_full_auto_case/request/create.rb:28-33 | a reply carrying the fresh message id finds exactly the request just created |
| RequestCreate.FindLast | spec/support/case_core/actions/requests.rb:56-64 | a record appended with a fresh id is the one found by that id |
| RequestRepeat.Repeat | lib/sd_full_auto_case/request/repeat.rb:34-38 | with `exceptions_count <= MAX_EXCEPTIONS_COUNT` a `Create` job is scheduled after `WAIT_TIME` (a stopped scheduler raises); otherwise nothing |
| Callbacks.AfterRun | lib/sd_full_auto_case/base/state_driven_fsa.rb:78-85 | no callback leaves everything; only `Request::Create` touches requests and the broker; only `Request::Repeat` touches the jobs or can fail |
| Callbacks.RepeatSchedulesAtMostOne | lib/sd_full_auto_case/request/repeat.rb:34-61 | `Request::Repeat` adds exactly one job, the case's `Create` after `WAIT_TIME`, iff a retry is allowed and the scheduler runs; it fails iff a retry is allowed and the scheduler is stopped |
| Callbacks.RunAfter | lib/sd_full_auto_case/base/state_driven_fsa.rb:78-85 | running the callback on the stores gives the interpreted new state and outcome |
| StateDrivenFsa.AllNeededAttrs | lib/sd_full_auto_case/base/state_driven_fsa.rb:121-127 | `state` plus every name any edge needs, and nothing else |
| StateDrivenFsa.New | lib/sd_full_auto_case/base/state_driven_fsa.rb:34-42 | a non-case, a case of another type, and non-hash params are refused in that order; otherwise the handler holds exactly the needed attributes of the case |
| StateDrivenFsa.ObtainValue | lib/sd_full_auto_case/base/state_driven_fsa.rb:184-212 | nil writes nil; a name the handler answers writes its value, else a parameter of that name; else a string writes itself and a symbol is skipped |
| StateDrivenFsa.NewCaseAttributes | lib/sd_full_auto_case/base/state_driven_fsa.rb:167-173 | exactly the `set` keys whose value resolves to a write, with that value |
| StateDrivenFsa.CopiedThenBound | lib/sd_full_auto_case/base/state_driven_fsa.rb:167-173 | a `set` of copied parameters plus three bindings writes each copied field iff it is a parameter, and each binding iff it resolves |
| StateDrivenFsa.BlankedThenBound | lib/sd_full_auto_case/base/state_driven_fsa.rb:167-173 | a `set` of blanked fields plus two bindings clears every blanked field and writes each binding iff it resolves |
| StateDrivenFsa.BoundExactly | lib/sd_full_auto_case/base/state_driven_fsa.rb:167-173 | a three-binding `set` whose values all resolve writes exactly those three values |
| StateDrivenFsa.BuildNewCaseAttributes | lib/sd_full_auto_case/base/state_driven_fsa.rb:167-173 | the memo built key by key equals the resolved `set` |
| StateDrivenFsa.InvokeCheck | lib/sd_full_auto_case/base/state_driven_fsa.rb:142-150 | the move is refused iff the check returns exactly `false` and the raise class is nil (NoMethodError) or below RuntimeError (that class is raised) |
| StateDrivenFsa.UnguardedPasses | lib/sd_full_auto_case/base/state_driven_fsa.rb:142-150 | an edge without check always passes |
| StateDrivenFsa.PredGuard | lib/sd_full_auto_case/base/state_driven_fsa.rb:142-150 | a one-predicate check passes iff the predicate holds, else raises its class |
| StateDrivenFsa.NotPredGuard | lib/sd_full_auto_case/base/state_driven_fsa.rb:142-150 | a negated check passes iff the predicate fails |
| StateDrivenFsa.NeitherPredGuard | lib/sd_full_auto_case/base/state_driven_fsa.rb:142-150 | `!p && !q` passes iff neither holds |
| StateDrivenFsa.EitherPredGuard | lib/sd_full_auto_case/base/state_driven_fsa.rb:142-150 | `p \|\| q` passes iff either holds |
| StateDrivenFsa.Process | lib/sd_full_auto_case/base/state_driven_fsa.rb:78-85 | an undeclared edge raises `Edge::Absent`, a failed check its error; otherwise the change holds `state` and exactly the resolved `set`, with `state` the target unless `set` writes it |
| StateDrivenFsa.UnnamedAttributesKept | lib/sd_full_auto_case/base/state_driven_fsa.rb:156-159 | an attribute the edge's `set` does not name, other than `state`, keeps its value |
| StateDrivenFsa.Run | lib/sd_full_auto_case/base/state_driven_fsa.rb:78-85 | on failure nothing changes; on success the case attributes are updated with the change and the callback runs on the stores |
| ChangeStateTo.AccessorResponds | lib/sd_full_auto_case/change_state_to.rb:345-381 | the handler answers exactly the reader names (`now`, `case_id`, the planned dates, …) |
| ChangeStateTo.NowResolves | lib/sd_full_auto_case/base/state_driven_fsa/utils.rb:20-22 | `:now` writes the current time |
| ChangeStateTo.PlannedResolves | lib/sd_full_auto_case/change_state_to.rb:354-381 | a planned-date symbol writes the case's attribute of that name |
| ChangeStateTo.StatusResolves | lib/sd_full_auto_case/base/state_driven_fsa.rb:184-190 | a status string that names no reader or parameter writes itself |
| ChangeStateTo.StatusesAreNotReaders | lib/sd_full_auto_case/change_state_to.rb:18-26 | no `CASE_STATUS` text is a reader name |
| ChangeStateTo.TableDomain | lib/sd_full_auto_case/change_state_to.rb:29-290 | the graph has exactly the ten declared edges A and C1–C9 |
| ChangeStateTo.UnsupportedPairRefused | lib/sd_full_auto_case/base/state_driven_fsa.rb:78-85 | any other (state, target) pair raises `Edge::Absent` |
| ChangeStateTo.SupportedPairCommits | lib/sd_full_auto_case/base/state_driven_fsa.rb:78-85 | a declared edge commits iff its check passes, writing `state` and exactly the edge's resolved `set` |
| ChangeStateTo.ChangeState | lib/sd_full_auto_case/base/state_driven_fsa.rb:34-85 | `ChangeStateTo.new(...).process` on the stores: refusal changes nothing; a commit updates the case and runs the callback |
| ChangeStateTo.SmevSendingRow | lib/sd_full_auto_case/change_state_to.rb:29-36 | edge A: no check, needs `special_data`, `service_id`, runs `Request::Create` |
| ChangeStateTo.StoredNeedA | lib/sd_full_auto_case/change_state_to.rb:30 | A's stored need list is the declared one |
| ChangeStateTo.DeclaredA | lib/sd_full_auto_case/change_state_to.rb:29-36 | the (nil, smev_sending) entry is edge A |
| ChangeStateTo.SmevSendingWrites | lib/sd_full_auto_case/change_state_to.rb:31-35 | A writes `case_creation_date` = now, `case_id` = the case's id and the smev_sending status, and nothing else |
| ChangeStateTo.SetAResolves | lib/sd_full_auto_case/change_state_to.rb:31-35 | A's `set` resolves to those three values |
| ChangeStateTo.PendingFromPackagingRow | lib/sd_full_auto_case/change_state_to.rb:39-66 | edge C1: no check, needs `planned_sending_date`, no callback |
| ChangeStateTo.StoredNeedC1 | lib/sd_full_auto_case/change_state_to.rb:40 | C1's stored need list is the declared one |
| ChangeStateTo.DeclaredC1 | lib/sd_full_auto_case/change_state_to.rb:39-66 | the (packaging, pending) entry is edge C1 |
| ChangeStateTo.PendingFromPackagingWrites | lib/sd_full_auto_case/change_state_to.rb:41-65 | C1 writes the pending status, the sending date = now, `planned_finish_date` = the case's planned sending date, and each register field iff it is a parameter |
| ChangeStateTo.SetC1Resolves | lib/sd_full_auto_case/change_state_to.rb:41-65 | C1's `set` resolves to those values |
| ChangeStateTo.PackagingRow | lib/sd_full_auto_case/change_state_to.rb:69-98 | edge C2: check `!rejected?`, raises `PendingPackaging`, needs `rejecting_date`, `planned_sending_date` |
| ChangeStateTo.StoredNeedC2 | lib/sd_full_auto_case/change_state_to.rb:70 | C2's stored need list is the declared one |
| ChangeStateTo.DeclaredC2 | lib/sd_full_auto_case/change_state_to.rb:69-98 | the (pending, packaging) entry is edge C2 |
| ChangeStateTo.PackagingWrites | lib/sd_full_auto_case/change_state_to.rb:69-98 | C2 writes the packaging status and the planned sending date, and clears the sending date and every register field |
| ChangeStateTo.SetC2Resolves | lib/sd_full_auto_case/change_state_to.rb:69-98 | C2's `set` resolves to those values |
| ChangeStateTo.ProcessingRow | lib/sd_full_auto_case/change_state_to.rb:101-128 | edge C3: check `!issuance_in_institution? && !rejected?`, raises `PendingProcessing` |
| ChangeStateTo.StoredNeedC3 | lib/sd_full_auto_case/change_state_to.rb:102 | C3's stored need list is the declared one |
| ChangeStateTo.DeclaredC3 | lib/sd_full_auto_case/change_state_to.rb:101-128 | the (pending, processing) entry is edge C3 |
| ChangeStateTo.ProcessingWrites | lib/sd_full_auto_case/change_state_to.rb:101-128 | C3 writes the processing status, the sending date = now, the planned receiving date, and each processing field iff it is a parameter |
| ChangeStateTo.SetC3Resolves | lib/sd_full_auto_case/change_state_to.rb:101-128 | C3's `set` resolves to those values |
| ChangeStateTo.PendingToRejectingRow | lib/sd_full_auto_case/change_state_to.rb:131-160 | edge C4: check `rejected?`, raises `PendingRejecting` |
| ChangeStateTo.StoredNeedC4 | lib/sd_full_auto_case/change_state_to.rb:132 | C4's stored need list is the declared one |
| ChangeStateTo.DeclaredC4 | lib/sd_full_auto_case/change_state_to.rb:131-160 | the (pending, rejecting) entry is edge C4 |
| ChangeStateTo.PendingToRejectingWrites | lib/sd_full_auto_case/change_state_to.rb:131-160 | C4 writes the rejecting status and the planned rejecting finish date and clears the rejecting-register fields |
| ChangeStateTo.SetC4Resolves | lib/sd_full_auto_case/change_state_to.rb:131-160 | C4's `set` resolves to those values |
| ChangeStateTo.PendingFromRejectingRow | lib/sd_full_auto_case/change_state_to.rb:163-190 | edge C5: no check, needs `planned_rejecting_finish_date` |
| ChangeStateTo.StoredNeedC5 | lib/sd_full_auto_case/change_state_to.rb:164 | C5's stored need list is the declared one |
| ChangeStateTo.DeclaredC5 | lib/sd_full_auto_case/change_state_to.rb:163-190 | the (rejecting, pending) entry is edge C5 |
| ChangeStateTo.PendingFromRejectingWrites | lib/sd_full_auto_case/change_state_to.rb:163-190 | C5 writes the pending status, the register date = now, the planned rejecting finish date, and each register field iff it is a parameter |
| ChangeStateTo.SetC5Resolves | lib/sd_full_auto_case/change_state_to.rb:163-190 | C5's `set` resolves to those values |
| ChangeStateTo.PendingToClosedRow | lib/sd_full_auto_case/change_state_to.rb:193-220 | edge C6: check `issuance_in_institution? \|\| rejected?`, raises `PendingClosed` |
| ChangeStateTo.StoredNeedC6 | lib/sd_full_auto_case/change_state_to.rb:194 | C6's stored need list is the declared one |
| ChangeStateTo.DeclaredC6 | lib/sd_full_auto_case/change_state_to.rb:193-220 | the (pending, closed) entry is edge C6 |
| ChangeStateTo.PendingToClosedWrites | lib/sd_full_auto_case/change_state_to.rb:193-220 | C6 writes the closed status, `closed_date` = now, clears `planned_finish_date`, and each closing field iff it is a parameter |
| ChangeStateTo.SetC6Resolves | lib/sd_full_auto_case/change_state_to.rb:193-220 | C6's `set` resolves to those values |
| ChangeStateTo.IssuanceRow | lib/sd_full_auto_case/change_state_to.rb:223-249 | edge C7: no check, needs `planned_issuance_finish_date` |
| ChangeStateTo.StoredNeedC7 | lib/sd_full_auto_case/change_state_to.rb:224 | C7's stored need list is the declared one |
| ChangeStateTo.DeclaredC7 | lib/sd_full_auto_case/change_state_to.rb:223-249 | the (processing, issuance) entry is edge C7 |
| ChangeStateTo.IssuanceWrites | lib/sd_full_auto_case/change_state_to.rb:223-249 | C7 writes the issuance status, the receiving date = now, the planned issuance finish date, and each issuance field iff it is a parameter |
| ChangeStateTo.SetC7Resolves | lib/sd_full_auto_case/change_state_to.rb:223-249 | C7's `set` resolves to those values |
| ChangeStateTo.IssuanceToRejectingRow | lib/sd_full_auto_case/change_state_to.rb:252-260 | edge C8: check `!can_be_issued?`, raises `IssuanceRejecting` |
| ChangeStateTo.StoredNeedC8 | lib/sd_full_auto_case/change_state_to.rb:253 | C8's stored need list is the declared one |
| ChangeStateTo.DeclaredC8 | lib/sd_full_auto_case/change_state_to.rb:252-260 | the (issuance, rejecting) entry is edge C8 |
| ChangeStateTo.IssuanceToRejectingWrites | lib/sd_full_auto_case/change_state_to.rb:252-260 | C8 writes exactly the rejecting status, `rejecting_date` = now and the planned rejecting finish date |
| ChangeStateTo.SetC8Resolves | lib/sd_full_auto_case/change_state_to.rb:252-260 | C8's `set` resolves to those three values |
| ChangeStateTo.IssuanceToClosedRow | lib/sd_full_auto_case/change_state_to.rb:263-290 | edge C9: check `can_be_issued?`, raises `IssuanceClosed`, same `set` as C6 |
| ChangeStateTo.StoredNeedC9 | lib/sd_full_auto_case/change_state_to.rb:264 | C9's stored need list is the declared one |
| ChangeStateTo.DeclaredC9 | lib/sd_full_auto_case/change_state_to.rb:263-290 | the (issuance, closed) entry is edge C9 |
| ChangeStateTo.IssuanceToClosedWrites | lib/sd_full_auto_case/change_state_to.rb:263-290 | C9 writes the closed status, `closed_date` = now, clears `planned_finish_date`, and each closing field iff it is a parameter |
| ChangeStateTo.PackagingGuard | lib/sd_full_auto_case/change_state_to.rb:316-318 | C2 passes iff `rejecting_date` is nil, else raises `PendingPackaging` |
| ChangeStateTo.ProcessingGuard | lib/sd_full_auto_case/change_state_to.rb:306-318 | C3 passes iff the issue method is not `institution` (case-insensitively) and the case is not rejected |
| ChangeStateTo.PendingToRejectingGuard | lib/sd_full_auto_case/change_state_to.rb:316-318 | C4 passes iff the case is rejected |
| ChangeStateTo.PendingToClosedGuard | lib/sd_full_auto_case/change_state_to.rb:306-318 | C6 passes iff the issuance is in the institution or the case is rejected |
| ChangeStateTo.IssuanceToRejectingGuard | lib/sd_full_auto_case/change_state_to.rb:326-330 | C8 passes iff today is not before a parseable `planned_rejecting_date` |
| ChangeStateTo.IssuanceToClosedGuard | lib/sd_full_auto_case/change_state_to.rb:326-330 | C9 passes iff today is before it, or it is absent or unparseable |
| ChangeStateTo.PackagingOrRejecting | lib/sd_full_auto_case/change_state_to.rb:69-160 | from `pending`, exactly one of C2 and C4 passes its check |
| ChangeStateTo.ProcessingOrClosed | lib/sd_full_auto_case/change_state_to.rb:101-220 | from `pending`, exactly one of C3 and C6 passes its check |
| ChangeStateTo.RejectingOrClosed | lib/sd_full_auto_case/change_state_to.rb:252-290 | from `issuance`, exactly one of C8 and C9 passes its check |
| ChangeStateTo.RegisterFieldsNotRead | lib/sd_full_auto_case/change_state_to.rb:39-66 | no pending-register field is a handler reader, so each is copied from the parameters |
| ChangeStateTo.RejectingRegisterFieldsNotRead | lib/sd_full_auto_case/change_state_to.rb:163-190 | no rejecting-register field is a handler reader |
| ChangeStateTo.ProcessingFieldsNotRead | lib/sd_full_auto_case/change_state_to.rb:101-128 | no processing field is a handler reader |
| ChangeStateTo.ClosedFieldsNotRead | lib/sd_full_auto_case/change_state_to.rb:193-220 | no closing field is a handler reader |
| ChangeStateTo.IssuanceFieldsNotRead | lib/sd_full_auto_case/change_state_to.rb:223-249 | no issuance field is a handler reader |
| ChangeStateTo.RegisterFieldsExclude | lib/sd_full_auto_case/change_state_to.rb:39-66 | the copied register fields do not override the status, the date or the planned finish date |
| ChangeStateTo.RejectingRegisterFieldsExclude | lib/sd_full_auto_case/change_state_to.rb:163-190 | the rejecting-register fields do not override the bound keys |
| ChangeStateTo.ProcessingFieldsExclude | lib/sd_full_auto_case/change_state_to.rb:101-128 | the processing fields do not override the bound keys |
| ChangeStateTo.ClosedFieldsExclude | lib/sd_full_auto_case/change_state_to.rb:193-220 | the closing fields do not override the bound keys |
| ChangeStateTo.IssuanceFieldsExclude | lib/sd_full_auto_case/change_state_to.rb:223-249 | the issuance fields do not override the bound keys |
| ResponseDataSchema.FormatOf | lib/sd_full_auto_case/base/message_driven_fsa/response_data_schema.rb:16-19 | a format is recognised exactly when it is `EXCEPTION`, `REJECTION` or `RESPONSE` |
| ResponseDataSchema.StringOf | lib/sd_full_auto_case/base/message_driven_fsa/response_data_schema.rb:13-15 | a field is read exactly when it is a JSON string, as that string |
| ResponseDataSchema.AttachmentOf | lib/sd_full_auto_case/base/message_driven_fsa/response_data_schema.rb:31-43 | a `null` item gives no attachment, an object one with its `fs_id` |
| ResponseDataSchema.Decode | lib/sd_full_auto_case/base/message_driven_fsa/response_data_schema.rb:10-51 | a body decodes exactly when it matches the schema, keeping `id`, `format`, `content.special_data` and the presence of `attachments` |
| ResponseDataSchema.Put | lib/sd_full_auto_case/base/message_driven_fsa/response_data_schema.rb:10-51 | writing one key leaves every other key as it was |
| ResponseDataSchema.AttachmentRoundTrip | lib/sd_full_auto_case/base/message_driven_fsa/response_data_schema.rb:31-43 | an encoded attachment is valid and decodes back to itself |
| ResponseDataSchema.DecodeEncode | lib/sd_full_auto_case/base/message_driven_fsa/response_data_schema.rb:10-51 | every well-formed reply encodes to a valid body that decodes back to it |
| ResponseDataSchema.DecodedWellFormed | lib/sd_full_auto_case/base/message_driven_fsa/response_data_schema.rb:10-51 | every decoded body is well formed |
| ResponseDataSchema.RequiredKeys | lib/sd_full_auto_case/base/message_driven_fsa/response_data_schema.rb:46-50 | a body without `id`, `format` or `content` is invalid |
| ResponseDataSchema.ExtraKeyAllowed | lib/sd_full_auto_case/base/message_driven_fsa/response_data_schema.rb:10-51 | an unknown extra key neither invalidates a body nor changes its decoding |
| MessageDrivenFsa.New | lib/sd_full_auto_case/base/message_driven_fsa.rb:26-31 | a non-message raises `Message::BadType`, unparseable JSON a parse error, a schema mismatch `ValidationError`; otherwise the handler holds the decoded data |
| MessageDrivenFsa.AllNeededAttrs | lib/sd_full_auto_case/base/message_driven_fsa.rb:139-147 | `state` plus every name any edge of any control needs, and nothing else |
| MessageDrivenFsa.FindPositiveInfo | lib/sd_full_auto_case/base/message_driven_fsa.rb:160-165 | the first edge whose `if` holds (or that has none), or none exactly when no edge is selectable |
| MessageDrivenFsa.ObtainValue | lib/sd_full_auto_case/base/message_driven_fsa.rb:210-216 | nil writes nil; a name the handler answers writes its value, else the name itself |
| MessageDrivenFsa.NewCaseAttributes | lib/sd_full_auto_case/base/message_driven_fsa.rb:195-201 | exactly the `set` keys, each with its resolved value |
| MessageDrivenFsa.Select | lib/sd_full_auto_case/base/message_driven_fsa.rb:40-125 | the plan's request carries the reply's id, its case has this type, the snapshot is the needed attributes, and the edge is the first selectable one of the control pair |
| MessageDrivenFsa.SelectFailures | lib/sd_full_auto_case/base/message_driven_fsa/helpers.rb:34-96 | missing case, wrong type, undeclared control pair and no selectable edge each raise their own error |
| MessageDrivenFsa.ResponseFields | lib/sd_full_auto_case/base/message_driven_fsa.rb:181-187 | the request records `response_format` and `response_content` |
| MessageDrivenFsa.Changes | lib/sd_full_auto_case/base/message_driven_fsa.rb:195-201 | the case gets `state` and exactly the resolved `set`, `state` the edge's target unless `set` writes it |
| MessageDrivenFsa.Process | lib/sd_full_auto_case/base/message_driven_fsa.rb:40-52 | a failed selection changes nothing; files are saved one by one up to the first failure, each document stamped with the `createdAt` time; then the request, the case and the callback run in the source's order |
| MessageDrivenFsa.NilGuardPassesCheckButIsNotSelected | lib/sd_full_auto_case/base/message_driven_fsa.rb:160-165 | the same nil read passes a state-driven check yet never selects a message-driven edge |
| OutputFilesExtractor.SearchFrom | lib/sd_full_auto_case/base/message_driven_fsa/output_files_extractor.rb:67 | `String#index('base64,')` from a position: the first occurrence, or none when there is none |
| OutputFilesExtractor.DecodeFileBodyAfterFirstMarker | lib/sd_full_auto_case/base/message_driven_fsa/output_files_extractor.rb:66-70 | without a marker `nil + 7` raises; otherwise the text after the first marker is decoded |
| OutputFilesExtractor.DataUrlDecoded | lib/sd_full_auto_case/base/message_driven_fsa/output_files_extractor.rb:66-70 | a data URL decodes to the decoding of its payload |
| OutputFilesExtractor.MarkerInPrefix | lib/sd_full_auto_case/base/message_driven_fsa/output_files_extractor.rb:67 | a marker inside a prefix is a marker of the whole text |
| OutputFilesExtractor.SaveOne | lib/sd_full_auto_case/base/message_driven_fsa/output_files_extractor.rb:52-58 | a nil entry or one without `fs_id` is skipped; a saved one keeps its entry |
| OutputFilesExtractor.Kept | lib/sd_full_auto_case/base/message_driven_fsa/output_files_extractor.rb:53 | no more entries are kept than given |
| OutputFilesExtractor.KeptMembers | lib/sd_full_auto_case/base/message_driven_fsa/output_files_extractor.rb:53 | an entry is kept exactly when it is non-nil and carries an `fs_id` |
| OutputFilesExtractor.KeptAppend | lib/sd_full_auto_case/base/message_driven_fsa/output_files_extractor.rb:53 | keeping the entries of a concatenation keeps each part's entries in turn, so the list order is kept |
| OutputFilesExtractor.NewFiles | spec/support/case_core/actions/files.rb:14-19 | one file per saved body with consecutive fresh ids |
| OutputFilesExtractor.NewDocuments | lib/sd_full_auto_case/base/message_driven_fsa/output_files_extractor.rb:87-96 | one document per saved body, pointing at its file |
| OutputFilesExtractor.SaveOutputFile | lib/sd_full_auto_case/base/message_driven_fsa/output_files_extractor.rb:52-58 | a skipped entry changes nothing, a failing fetch or decode raises with nothing stored, a saved one adds one file and its document |
| OutputFilesExtractor.Extract | lib/sd_full_auto_case/base/message_driven_fsa/output_files_extractor.rb:32-34 | the files and documents of the entries saved before the first failure are stored, and the failure is reported |
| OutputFilesExtractor.SavingAdvances | lib/sd_full_auto_case/base/message_driven_fsa/output_files_extractor.rb:32-34 | one step of `each`: skip, stop on failure, or append one saved entry |
| OutputFilesExtractor.SavingStep | lib/sd_full_auto_case/base/message_driven_fsa/output_files_extractor.rb:32-34 | the first entry is skipped, fails the run or is saved before the rest |
| OutputFilesExtractor.NewRecordsAppend | lib/sd_full_auto_case/base/message_driven_fsa/output_files_extractor.rb:87-96 | one more saved entry adds one file and one document with the next id |
| OutputFilesExtractor.StoredArePrefixOfKept | lib/sd_full_auto_case/base/message_driven_fsa/output_files_extractor.rb:32-58 | the stored entries are, in order, a prefix of the entries with an `fs_id`: all of them without failure, fewer with one |
| OutputFilesExtractor.NothingKeptNothingStored | lib/sd_full_auto_case/base/message_driven_fsa/output_files_extractor.rb:53 | with no `fs_id` anywhere nothing is stored and nothing fails |
| OutputFilesExtractor.DocumentsNameTheirFiles | lib/sd_full_auto_case/base/message_driven_fsa/output_files_extractor.rb:73-96 | each document names its new file, the case, `original`, `output`, provided; new file ids are distinct from each other and from earlier ones |
| RespondToMessage.Signals | lib/sd_full_auto_case/base/message_driven_fsa.rb:117 | the downcased formats are `exception`, `rejection`, `response` |
| RespondToMessage.Accepted | lib/sd_full_auto_case/base/message_driven_fsa/edge_info.rb:50-57 | options with a valid `set` and `need` are stored as declared |
| RespondToMessage.DeclaredB1 | lib/sd_full_auto_case/respond_to_message.rb:21-28 | B1's options are accepted as the stored edge B1 |
| RespondToMessage.DeclaredB2 | lib/sd_full_auto_case/respond_to_message.rb:31-39 | B2's options are accepted as the stored edge B2 |
| RespondToMessage.DeclaredB3 | lib/sd_full_auto_case/respond_to_message.rb:42-49 | B3's options are accepted as the stored edge B3 |
| RespondToMessage.DeclaredB4 | lib/sd_full_auto_case/respond_to_message.rb:52-60 | B4's options are accepted as the stored edge B4 |
| RespondToMessage.TableDomain | lib/sd_full_auto_case/respond_to_message.rb:21-60 | a control pair is declared iff the case is in `smev_sending` or `error`; EXCEPTION gets [B1, B2], REJECTION and RESPONSE get [B3, B4] |
| RespondToMessage.NeededNames | lib/sd_full_auto_case/respond_to_message.rb:21-60 | the case attributes read include `case_id`, `issue_method` and both planned dates |
| RespondToMessage.ExceptionRow | lib/sd_full_auto_case/respond_to_message.rb:21-39 | B1 if `repeat?` to `error`, B2 if `!repeat?` to `packaging`, both with `Request::Repeat` and their need lists |
| RespondToMessage.ReplyRow | lib/sd_full_auto_case/respond_to_message.rb:42-60 | B3 if `!mfc_issuance?` to `closed`, B4 if `mfc_issuance?` to `issuance`, no callback |
| RespondToMessage.ExceptionSelection | lib/sd_full_auto_case/respond_to_message.rb:70-72 | exactly one of B1 and B2 is selectable: B1 iff a retry is allowed |
| RespondToMessage.ReplySelection | lib/sd_full_auto_case/respond_to_message.rb:81-83 | exactly one of B3 and B4 is selectable: B4 iff the issuance is at the MFC |
| RespondToMessage.MfcIssuanceCases | lib/sd_full_auto_case/respond_to_message.rb:76-83 | `mfc_issuance?` holds exactly when `issue_method` is present and is `mfc` up to letter case (so nil, blank and any other value are not MFC) |
| RespondToMessage.B1Writes | lib/sd_full_auto_case/respond_to_message.rb:24-26 | B1 writes only the error status |
| RespondToMessage.B2Writes | lib/sd_full_auto_case/respond_to_message.rb:34-37 | B2 writes the packaging status and the literal name `planned_sending_date` |
| RespondToMessage.B3Writes | lib/sd_full_auto_case/respond_to_message.rb:45-48 | B3 writes `closed_date` = now and the closed status |
| RespondToMessage.B4Writes | lib/sd_full_auto_case/respond_to_message.rb:55-59 | B4 writes the issuance status, the receiving date = now and the literal name `planned_issuance_finish_date` |
| RespondToMessage.PlannedDatesNotCopied | lib/sd_full_auto_case/respond_to_message.rb:31-60 | B2 and B4 do not copy the case's planned dates into `planned_finish_date` |
| RespondToMessage.ExceptionRecorded | lib/sd_full_auto_case/base/message_driven_fsa.rb:181-187 | recording an EXCEPTION reply marks the request as an EXCEPTION |
| RespondToMessage.RetryLostAtTheLimit | lib/sd_full_auto_case/request/repeat.rb:59-61 | at exactly `MAX_EXCEPTIONS_COUNT` B1 is selected, yet its `Request::Repeat` schedules nothing |
| RespondToMessage.Respond | lib/sd_full_auto_case/base/message_driven_fsa.rb:26-52 | `RespondToMessage.new(message).process` on the stores, step by step, with the error of the first failing step |
| Repeater.RepeatJobs | lib/sd_full_auto_case/repeater.rb:14-20 | every job of a sweep is a `Create` after `WAIT_TIME`, at most one per case |
| Repeater.RepeatJobsAppend | lib/sd_full_auto_case/repeater.rb:16-19 | sweeping two lists in a row schedules the jobs of the first, then of the second |
| Repeater.RepeatJobsMembers | lib/sd_full_auto_case/repeater.rb:16-19 | a case's job is scheduled iff it is listed and still allowed a retry |
| Repeater.ErrorCasesRetried | lib/sd_full_auto_case/repeater.rb:8-20 | a case in `error` gets a job with its `special_data`, `service_id` and id iff a retry is allowed |
| Repeater.OnlyErrorCases | lib/sd_full_auto_case/repeater.rb:8-20 | only cases in `error` get a job |
| Repeater.SweepStep | lib/sd_full_auto_case/repeater.rb:16-19 | one more case adds its job, if any, last |
| Repeater.Repeat | lib/sd_full_auto_case/repeater.rb:14-20 | a running scheduler gets every job of the sweep; a stopped one gets none and the first allowed retry raises |
| Rejector.PreviousDay | lib/sd_full_auto_case/rejector.rb:28-32 | `Date.today - 1` is a valid date before today |
| Rejector.PreviousDayIsAdjacent | lib/sd_full_auto_case/rejector.rb:28-32 | no date lies strictly between yesterday and today |
| Rejector.OrdinalBounds | lib/sd_full_auto_case/rejector.rb:28-32 | a date's ordinal lies inside its year's and its month's range |
| Rejector.DigitChar | lib/sd_full_auto_case/rejector.rb:31 | a digit's character reads back as that digit |
| Rejector.TwoDigits | lib/sd_full_auto_case/rejector.rb:31 | a zero-padded two-digit field reads back as its number |
| Rejector.DateString | lib/sd_full_auto_case/rejector.rb:31 | `Date#to_s` is ten characters |
| Rejector.DateStringRoundTrip | lib/sd_full_auto_case/rejector.rb:31 | `Date#to_s` parses back to the same date |
| Rejector.TwoDigitsOrder | lib/sd_full_auto_case/rejector.rb:36-38 | two-digit fields compare as strings as their numbers do |
| Rejector.StrLeAppend | lib/sd_full_auto_case/rejector.rb:36-38 | string comparison of equal-length heads decides on the heads unless they are equal |
| Rejector.DateStringFields | lib/sd_full_auto_case/rejector.rb:36-38 | date strings compare field by field: century, year, month, day |
| Rejector.DateStringOrder | lib/sd_full_auto_case/rejector.rb:36-38 | date strings compare as their dates do |
| Rejector.ExpiredWhenDueBeforeToday | lib/sd_full_auto_case/rejector.rb:23-38 | an `issuance` case with a planned rejecting date is expired iff that date is before today |
| Rejector.CloseIds | lib/sd_full_auto_case/rejector.rb:77-84 | the cases to close are at most the expired ones |
| Rejector.RejectIds | lib/sd_full_auto_case/rejector.rb:64-71 | the cases to reject are at most the expired ones |
| Rejector.PartitionSizes | lib/sd_full_auto_case/rejector.rb:64-84 | every expired case is closed or rejected, never both |
| Rejector.CloseIdsMembers | lib/sd_full_auto_case/rejector.rb:77-84 | a case is closed iff it is expired with the close mark |
| Rejector.RejectIdsMembers | lib/sd_full_auto_case/rejector.rb:64-71 | a case is rejected iff it is expired with another mark |
| Rejector.CloseChanges | lib/sd_full_auto_case/rejector.rb:103-110 | closing writes state `closed`, the closed status and `closed_date` |
| Rejector.RejectChanges | lib/sd_full_auto_case/rejector.rb:90-97 | rejecting writes state `rejecting`, the rejecting status and `rejecting_date` |
| Rejector.SweepLeavesOthers | lib/sd_full_auto_case/rejector.rb:15-18 | a case that is not expired keeps all its attributes |
| Rejector.SweepMovesExpired | lib/sd_full_auto_case/rejector.rb:15-18 | an expired case with the mark is closed, any other expired case is moved to `rejecting` |
| Rejector.Rejector.ExpiredCases | lib/sd_full_auto_case/rejector.rb:55-58 | the index is computed once with yesterday's date and memoised on success |
| Rejector.Rejector.Reject | lib/sd_full_auto_case/rejector.rb:15-18 | an index failure changes nothing; otherwise the close update, then the reject update |
| Rejector.RejectExpired | lib/sd_full_auto_case/rejector.rb:9-11 | a fresh rejector runs one sweep over the expired cases |
| SdFullAutoCase.OnUnload | lib/sd_full_auto_case.rb:33-35 | the scheduler and its jobs are dropped |
| SdFullAutoCase.OnLoad | lib/sd_full_auto_case.rb:25-30 | a fresh scheduler holds the daily sweep at `REJECTOR_CRON` followed by the retry of every case in `error` still allowed one |
| SdFullAutoCase.OnCaseCreation | lib/sd_full_auto_case.rb:46-48 | a new case is moved to `smev_sending` with empty parameters |
| SdFullAutoCase.ChangeStateToEntry | lib/sd_full_auto_case.rb:80-82 | the state-driven move, as the engine does it |
| SdFullAutoCase.OnRespondingStompMessage | lib/sd_full_auto_case.rb:55-64 | `true` iff the handler ran to the end; any raised error gives `false` and the effects of earlier steps stay |

## Left out

- Exceptions are modelled as a `Failure`/`Fail` value carrying the error class. Ruby's unwinding and the log line written by `on_responding_stomp_message` are not modelled.
- Hash iteration order, symbol-versus-string keys and JSON numbers are not modelled. A symbol written literally in a `set` hash is stored as its name.
- Handler readers: only the string-valued zero-argument readers are modelled (`now`, `case_id`, the planned dates, `person_id`, `type`, `response_*`). Kernel and Object methods reachable through `respond_to?` are not modelled.
- `casecmp?`, `downcase` and `present?`/`blank?` are modelled on ASCII only.
- `Date.parse`/`to_date` is modelled on ISO `YYYY-MM-DD` prefixes only. Other formats Ruby accepts count as unparseable.
- The clock (`Time.now`, `Date.today`), message ids (`SecureRandom.uuid`), the JSON parser, the file server request and Base64 decoding are parameters. The model proves nothing about them.
- The `mime_type` and `filename` of an attachment are modelled as strings or nil. Other JSON types are not modelled.
- Rejector.PreviousDay: dates before 0000-01-01 and years of five or more digits are not modelled, because `Date#to_s` pads only four year digits.
- Rejector.Rejector.Reject: `CLOSE_ON_REJECT_MARK` is not part of this model. It is a parameter `mark`, and `Time.now.strftime` is given as the `closedAt`/`rejectedAt` strings.
- CaseStore.IndexIssuance: the real index service is not part of this model. The model follows the store fake, comparing dates as strings. It also returns the requested `close_on_reject` field, while the fake returns ids only and ignores the `type` filter.
- The scheduler's jobs are recorded as values (`Scheduling.Entry`), not run. The delay and cron semantics of rufus-scheduler and concurrent job execution are not modelled.
- MessageDrivenFsa.Process: all documents saved for one message share one `createdAt` string, while the source reads `Time.now` once per document.
- CaseStore.IndexError: cases are listed in the order of the case records, not of their `state` attribute rows, and once per case record, where the source takes `uniq` case ids of the attribute rows; the two lists differ in order, and when two case records share an id. `CaseStore.IndexIssuance` also lists in the order of the case records.
- RequestStore.Requests.Update: fields named `case_id` or `created_at` are dropped as they are when a request is created, while the source drops only `id`. No caller in the model passes such a field.
- RespondToMessage.NeededNames: states only that the listed names are read, not the full set.
