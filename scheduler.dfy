/**
 * `SDFullAutoCase::Scheduler`, a wrapper around one process-wide job
 * scheduler, as a log of the jobs it holds. `launch` replaces the scheduler,
 * `stop` drops it with its jobs; `in` and `cron` call the current scheduler,
 * so with none they raise `NoMethodError` on nil.
 */
module Scheduling {
  import opened Wrappers
  import opened Values
  import opened Errors

  /** What a scheduled block does when it runs. */
  datatype Job =
      /** `Request::Create.create(case_id, case_attributes)`. */
    | CreateRequest(caseId: CaseId, attrs: Snapshot)
      /** `Rejector.reject`. */
    | RejectExpired

  datatype Entry = Delayed(delay: string, job: Job) | Recurring(cron: string, job: Job)

  class Scheduler {
    var running: bool
    var entries: seq<Entry>

    constructor ()
      ensures !running && entries == []
    {
      running := false;
      entries := [];
    }

    /** `launch`: stop the current scheduler and start an empty one. */
    method Launch()
      modifies this
      ensures running && entries == []
    {
      Stop();
      running := true;
    }

    /** `stop`: the scheduler and its jobs are dropped. */
    method Stop()
      modifies this
      ensures !running && entries == []
    {
      running := false;
      entries := [];
    }

    /** `in(delay) { job }`. */
    method In(delay: string, job: Job) returns (r: Outcome<Error>)
      modifies this
      ensures running == old(running)
      ensures old(running) ==> r.Pass? && entries == old(entries) + [Delayed(delay, job)]
      ensures !old(running) ==> r == Fail(NoMethod("scheduler")) && entries == old(entries)
    {
      if !running {
        return Fail(NoMethod("scheduler"));
      }
      entries := entries + [Delayed(delay, job)];
      r := Pass;
    }

    /** `cron(spec) { job }`. */
    method Cron(spec: string, job: Job) returns (r: Outcome<Error>)
      modifies this
      ensures running == old(running)
      ensures old(running) ==> r.Pass? && entries == old(entries) + [Recurring(spec, job)]
      ensures !old(running) ==> r == Fail(NoMethod("scheduler")) && entries == old(entries)
    {
      if !running {
        return Fail(NoMethod("scheduler"));
      }
      entries := entries + [Recurring(spec, job)];
      r := Pass;
    }
  }
}
