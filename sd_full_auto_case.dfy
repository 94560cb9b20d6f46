/**
 * `SDFullAutoCase`: the entry points the case service calls. Loading starts
 * a fresh scheduler with the daily expiry sweep and schedules the pending
 * retries; a new case is moved to `smev_sending`; a reply message is handed
 * to the message-driven handler, whose exceptions become `false`.
 */
module SdFullAutoCase {
  import opened Wrappers
  import opened Values
  import opened Errors
  import opened CaseStore
  import opened RequestStore
  import opened Outbox
  import opened Scheduling
  import opened Callbacks
  import opened Documents
  import opened StateDrivenFsa
  import opened OutputFilesExtractor
  import opened ResponseDataSchema
  import opened MessageDrivenFsa
  import ChangeStateTo
  import RespondToMessage
  import Repeater

  /** `REJECTOR_CRON`: every day at midnight. */
  const RejectorCron: string := "0 0 * * *"

  /** `on_unload`: the scheduler and its jobs are dropped. */
  method OnUnload(scheduler: Scheduler)
    modifies scheduler
    ensures !scheduler.running && scheduler.entries == []
  {
    scheduler.Stop();
  }

  /**
   * `on_load`: a fresh scheduler holding the daily sweep, followed by one
   * retry job for every case in `error` still allowed one.
   */
  method OnLoad(cases: Cases, requests: Requests, scheduler: Scheduler) returns (r: Outcome<Error>)
    modifies scheduler
    ensures scheduler.running && r.Pass?
    ensures scheduler.entries == [Recurring(RejectorCron, RejectExpired)]
      + Repeater.RepeatJobs(IndexError(cases.records, cases.attributes), requests.records, requests.attributes)
  {
    OnUnload(scheduler);
    scheduler.Launch();
    var cron := scheduler.Cron(RejectorCron, RejectExpired);
    r := Repeater.Repeat(cases, requests, scheduler);
  }

  /** `change_state_to(c4s3, state, params)`: the state-driven handler, as is. */
  method ChangeStateToEntry(c: CaseArg, state: string, params: ParamsArg, now: string, today: Date, messageId: string,
                            cases: Cases, requests: Requests, broker: Broker, scheduler: Scheduler)
    returns (r: Outcome<Error>)
    requires requests.Valid()
    modifies cases, requests, broker, scheduler
    ensures requests.Valid()
    ensures var t := ChangeStateTo.Transition(old(cases.attributes), c, state, params, now, today);
      && (t.Failure? ==> r == Fail(t.error) && unchanged(cases, requests, broker, scheduler))
      && (t.Success? ==>
            cases.records == old(cases.records)
            && cases.attributes == Updated(old(cases.attributes), [t.value.caseId], t.value.changes)
            && (Observe(requests, broker, scheduler), r)
               == AfterRun(t.value.after, t.value.caseId, t.value.snapshot, messageId, old(Observe(requests, broker, scheduler))))
  {
    r := ChangeStateTo.ChangeState(c, state, params, now, today, messageId, cases, requests, broker, scheduler);
  }

  /** `on_case_creation(c4s3)`: a move to `smev_sending` with an empty parameter hash. */
  method OnCaseCreation(c: CaseArg, now: string, today: Date, messageId: string,
                        cases: Cases, requests: Requests, broker: Broker, scheduler: Scheduler)
    returns (r: Outcome<Error>)
    requires requests.Valid()
    modifies cases, requests, broker, scheduler
    ensures requests.Valid()
    ensures var t := ChangeStateTo.Transition(old(cases.attributes), c, "smev_sending", ParamsHash(map[]), now, today);
      && (t.Failure? ==> r == Fail(t.error) && unchanged(cases, requests, broker, scheduler))
      && (t.Success? ==>
            cases.records == old(cases.records)
            && cases.attributes == Updated(old(cases.attributes), [t.value.caseId], t.value.changes)
            && (Observe(requests, broker, scheduler), r)
               == AfterRun(t.value.after, t.value.caseId, t.value.snapshot, messageId, old(Observe(requests, broker, scheduler))))
  {
    r := ChangeStateTo.ChangeState(c, "smev_sending", ParamsHash(map[]), now, today, messageId,
                                   cases, requests, broker, scheduler);
  }

  /**
   * `on_responding_stomp_message(message)`: `true` when the handler ran to
   * the end, `false` when any step raised; the effects of the steps before
   * the raising one stay.
   */
  method OnRespondingStompMessage(msg: MessageArg, parse: string -> Option<Json>, now: string, createdAt: string,
                                  fetch: string -> Option<string>, decode64: string -> string, messageId: string,
                                  cases: Cases, requests: Requests, documents: Store, broker: Broker,
                                  scheduler: Scheduler)
    returns (ok: bool)
    requires requests.Valid() && documents.Valid()
    modifies cases, requests, documents, broker, scheduler
    ensures requests.Valid() && documents.Valid()
    ensures MessageDrivenFsa.New(msg, parse).Failure? ==> !ok && unchanged(cases, requests, documents, broker, scheduler)
    ensures MessageDrivenFsa.New(msg, parse).Success? ==>
      var h := MessageDrivenFsa.New(msg, parse).value;
      var sel := Select(RespondToMessage.Edges(), h, old(requests.records), old(requests.attributes),
                        old(cases.records), old(cases.attributes),
                        RespondToMessage.HoldsIn(old(requests.records), old(requests.attributes)));
      && (sel.Failure? ==> !ok && unchanged(cases, requests, documents, broker, scheduler))
      && (sel.Success? && Saving(Entries(h.data.attachments), fetch, decode64).1.Some? ==>
            !ok && unchanged(cases, requests, broker, scheduler))
      && (sel.Success? && Saving(Entries(h.data.attachments), fetch, decode64).1.None? ==>
            var run := AfterRun(sel.value.edge.after, sel.value.caseId, sel.value.snapshot, messageId,
                                Recorded(old(Observe(requests, broker, scheduler)), sel.value.requestId, h));
            cases.attributes == Updated(old(cases.attributes), [sel.value.caseId], Changes(sel.value.edge, h, now))
            && Observe(requests, broker, scheduler) == run.0
            && ok == run.1.Pass?)
  {
    var r := RespondToMessage.Respond(msg, parse, now, createdAt, fetch, decode64, messageId,
                                      cases, requests, documents, broker, scheduler);
    ok := r.Pass?;
  }
}
