/**
 * `Request::Repeat`: a bounded retry. While a case has had at most
 * `MaxExceptionsCount` requests answered with EXCEPTION, `repeat` schedules
 * one new request for it after `WaitTime`.
 */
module RequestRepeat {
  import opened Wrappers
  import opened Values
  import opened Errors
  import opened RequestStore
  import opened Scheduling

  const WaitTime: string := "900s"
  const MaxExceptionsCount: nat := 10

  /** `exceptions_count(case_id)`. */
  function ExceptionsCount(records: seq<RequestRecord>, attrs: seq<RequestAttribute>, caseId: Value): nat
  {
    Count(records, attrs, caseId)
  }

  /** `repeat?(case_id)`. */
  predicate RepeatAllowed(records: seq<RequestRecord>, attrs: seq<RequestAttribute>, caseId: Value)
  {
    ExceptionsCount(records, attrs, caseId) <= MaxExceptionsCount
  }

  /**
   * `repeat(case_id, case_attributes)`: when `repeat?` holds, one job that
   * re-runs `Create.create` with the same id and attributes, delayed by
   * `WaitTime`; otherwise nothing.
   */
  method Repeat(caseId: CaseId, attrs: Snapshot, requests: Requests, scheduler: Scheduler) returns (r: Outcome<Error>)
    modifies scheduler
    ensures scheduler.running == old(scheduler.running)
    ensures !RepeatAllowed(requests.records, requests.attributes, Some(caseId)) ==>
      r.Pass? && scheduler.entries == old(scheduler.entries)
    ensures RepeatAllowed(requests.records, requests.attributes, Some(caseId)) && old(scheduler.running) ==>
      r.Pass? && scheduler.entries == old(scheduler.entries) + [Delayed(WaitTime, CreateRequest(caseId, attrs))]
    ensures RepeatAllowed(requests.records, requests.attributes, Some(caseId)) && !old(scheduler.running) ==>
      r == Fail(NoMethod("scheduler")) && scheduler.entries == old(scheduler.entries)
  {
    if !RepeatAllowed(requests.records, requests.attributes, Some(caseId)) {
      return Pass;
    }
    r := scheduler.In(WaitTime, CreateRequest(caseId, attrs));
  }
}
