/**
 * Running an edge's `after` object: `after&.call(c4s3, case_attributes)`.
 * `Request::Create.call` creates and publishes a request for the case,
 * `Request::Repeat.call` schedules one when the retry limit allows.
 */
module Callbacks {
  import opened Wrappers
  import opened Values
  import opened Errors
  import opened EdgeOptions
  import opened RequestStore
  import opened Outbox
  import opened Scheduling
  import RequestCreate
  import RequestRepeat

  /** Everything a callback can change: the request store, the broker's log and the scheduler. */
  datatype World = World(
    records: seq<RequestRecord>,
    attributes: seq<RequestAttribute>,
    nextId: nat,
    published: seq<Publication>,
    running: bool,
    entries: seq<Entry>)

  function Observe(requests: Requests, broker: Broker, scheduler: Scheduler): World
    reads requests, broker, scheduler
  {
    World(requests.records, requests.attributes, requests.nextId, broker.published, scheduler.running, scheduler.entries)
  }

  /**
   * The world after running `after` on the case `caseId` with the snapshot
   * `attrs`, and the callback's outcome: nothing for no callback; for
   * `Request::Create` one new request carrying `messageId` and one
   * publication; for `Request::Repeat` one delayed job when the case's
   * exception count, read from `w`, allows it.
   */
  function AfterRun(after: Option<Callback>, caseId: CaseId, attrs: Snapshot, messageId: string, w: World): (r: (World, Outcome<Error>))
    ensures after.None? ==> r == (w, Pass)
    ensures after != Some(RequestRepeat) ==> r.1.Pass?
    ensures after != Some(RequestCreate) ==>
      r.0.records == w.records && r.0.attributes == w.attributes && r.0.nextId == w.nextId && r.0.published == w.published
    ensures after != Some(RequestRepeat) ==> r.0.running == w.running && r.0.entries == w.entries
    ensures r.0.running == w.running
  {
    match after
    case None => (w, Pass)
    case Some(RequestCreate) =>
      (w.(records := w.records + [RequestRecord(w.nextId, caseId)],
          attributes := w.attributes + [RequestAttribute(w.nextId, "message_id", Some(messageId))],
          nextId := w.nextId + 1,
          published := w.published + [Publication(RequestCreate.QueueName, RequestCreate.MessageData(attrs, messageId))]),
       Pass)
    case Some(RequestRepeat) =>
      if !RequestRepeat.RepeatAllowed(w.records, w.attributes, Some(caseId)) then (w, Pass)
      else if w.running then (w.(entries := w.entries + [Delayed(RequestRepeat.WaitTime, CreateRequest(caseId, attrs))]), Pass)
      else (w, Fail(NoMethod("scheduler")))
  }

  /**
   * `Request::Repeat` as a callback adds at most one job, and adds one
   * exactly when the case's exception count is within the limit and a
   * scheduler is running; the job re-creates the request for the same case
   * with the same attributes.
   */
  lemma RepeatSchedulesAtMostOne(caseId: CaseId, attrs: Snapshot, messageId: string, w: World)
    ensures var (w', r) := AfterRun(Some(RequestRepeat), caseId, attrs, messageId, w);
      && (|w'.entries| == |w.entries| + 1 <==> RequestRepeat.RepeatAllowed(w.records, w.attributes, Some(caseId)) && w.running)
      && (|w'.entries| != |w.entries| + 1 ==> w'.entries == w.entries)
      && (|w'.entries| == |w.entries| + 1 ==> w'.entries == w.entries + [Delayed(RequestRepeat.WaitTime, CreateRequest(caseId, attrs))])
      && (r.Fail? <==> RequestRepeat.RepeatAllowed(w.records, w.attributes, Some(caseId)) && !w.running)
  {
  }

  method RunAfter(after: Option<Callback>, caseId: CaseId, attrs: Snapshot, messageId: string,
                  requests: Requests, broker: Broker, scheduler: Scheduler) returns (r: Outcome<Error>)
    requires requests.Valid()
    modifies requests, broker, scheduler
    ensures requests.Valid()
    ensures (Observe(requests, broker, scheduler), r) == AfterRun(after, caseId, attrs, messageId, old(Observe(requests, broker, scheduler)))
  {
    match after {
      case None =>
        r := Pass;
      case Some(RequestCreate) =>
        RequestCreate.Create(caseId, attrs, messageId, requests, broker);
        r := Pass;
      case Some(RequestRepeat) =>
        r := RequestRepeat.Repeat(caseId, attrs, requests, scheduler);
    }
  }
}
