/**
 * `Repeater.repeat`: for every case in state `error`, `Request::Repeat.repeat`
 * with the case's id and its `special_data`, `service_id` and `id`, in the
 * order the case index lists them. The first exception ends the sweep.
 */
module Repeater {
  import opened Wrappers
  import opened Values
  import opened Errors
  import opened CaseStore
  import opened RequestStore
  import opened Scheduling
  import RequestRepeat

  /** The job `Request::Repeat.repeat` schedules for an indexed case. */
  function JobFor(c: (CaseId, Snapshot)): Entry
  {
    Delayed(RequestRepeat.WaitTime, CreateRequest(c.0, c.1))
  }

  /** The jobs a sweep over `cases` schedules: one per case still allowed a retry, in order. */
  function RepeatJobs(cases: seq<(CaseId, Snapshot)>, records: seq<RequestRecord>, attrs: seq<RequestAttribute>): (r: seq<Entry>)
    ensures |r| <= |cases|
    ensures forall j :: j in r ==> j.Delayed? && j.delay == RequestRepeat.WaitTime && j.job.CreateRequest?
  {
    if cases == [] then []
    else
      (if RequestRepeat.RepeatAllowed(records, attrs, Some(cases[0].0)) then [JobFor(cases[0])] else [])
      + RepeatJobs(cases[1..], records, attrs)
  }

  /** A sweep over two lists in a row schedules the jobs of the first, then those of the second. */
  lemma {:induction false} RepeatJobsAppend(a: seq<(CaseId, Snapshot)>, b: seq<(CaseId, Snapshot)>,
                                            records: seq<RequestRecord>, attrs: seq<RequestAttribute>)
    ensures RepeatJobs(a + b, records, attrs) == RepeatJobs(a, records, attrs) + RepeatJobs(b, records, attrs)
  {
    if a != [] {
      assert (a + b)[1..] == a[1..] + b;
      RepeatJobsAppend(a[1..], b, records, attrs);
    } else {
      assert a + b == b;
    }
  }

  /** A job is scheduled exactly for the listed cases still allowed a retry. */
  lemma {:induction false} RepeatJobsMembers(cases: seq<(CaseId, Snapshot)>, records: seq<RequestRecord>,
                                             attrs: seq<RequestAttribute>, c: (CaseId, Snapshot))
    ensures JobFor(c) in RepeatJobs(cases, records, attrs) <==>
      c in cases && RequestRepeat.RepeatAllowed(records, attrs, Some(c.0))
  {
    if cases != [] {
      RepeatJobsMembers(cases[1..], records, attrs, c);
      assert cases == [cases[0]] + cases[1..];
    }
  }

  /**
   * Every case in state `error` that is still allowed a retry gets a job with
   * its `special_data`, `service_id` and `id`; a case over the limit gets none.
   */
  lemma ErrorCasesRetried(caseRecords: seq<CaseRecord>, store: Attributes, records: seq<RequestRecord>,
                          attrs: seq<RequestAttribute>, i: nat)
    requires i < |caseRecords|
    requires Lookup(AttributesOf(store, caseRecords[i].id), "state") == Some("error")
    ensures var c := (caseRecords[i].id, ErrorEntry(store, caseRecords[i].id));
      JobFor(c) in RepeatJobs(IndexError(caseRecords, store), records, attrs)
      <==> RequestRepeat.RepeatAllowed(records, attrs, Some(caseRecords[i].id))
  {
    var c := (caseRecords[i].id, ErrorEntry(store, caseRecords[i].id));
    RepeatJobsMembers(IndexError(caseRecords, store), records, attrs, c);
  }

  /** Only cases in state `error` get a job. */
  lemma OnlyErrorCases(caseRecords: seq<CaseRecord>, store: Attributes, records: seq<RequestRecord>,
                       attrs: seq<RequestAttribute>, c: (CaseId, Snapshot))
    requires JobFor(c) in RepeatJobs(IndexError(caseRecords, store), records, attrs)
    ensures Lookup(AttributesOf(store, c.0), "state") == Some("error")
    ensures c.1 == ErrorEntry(store, c.0)
  {
    var index := IndexError(caseRecords, store);
    RepeatJobsMembers(index, records, attrs, c);
    var k :| 0 <= k < |index| && index[k] == c;
  }

  /** One more case of the sweep: its job, if any, comes last; and a sweep with a job is not empty. */
  lemma SweepStep(index: seq<(CaseId, Snapshot)>, i: nat, records: seq<RequestRecord>, attrs: seq<RequestAttribute>)
    requires i < |index|
    ensures RepeatJobs(index[..i + 1], records, attrs) == RepeatJobs(index[..i], records, attrs)
      + (if RequestRepeat.RepeatAllowed(records, attrs, Some(index[i].0)) then [JobFor(index[i])] else [])
    ensures RequestRepeat.RepeatAllowed(records, attrs, Some(index[i].0)) ==> RepeatJobs(index, records, attrs) != []
  {
    assert index[..i + 1] == index[..i] + [index[i]];
    RepeatJobsAppend(index[..i], [index[i]], records, attrs);
    assert [index[i]][1..] == [];
    assert index == index[..i + 1] + index[i + 1..];
    RepeatJobsAppend(index[..i + 1], index[i + 1..], records, attrs);
  }

  /**
   * `repeat`. With a running scheduler every job of the sweep is added; with
   * none, the first case allowed a retry raises and nothing is added.
   */
  method Repeat(cases: Cases, requests: Requests, scheduler: Scheduler) returns (r: Outcome<Error>)
    modifies scheduler
    ensures scheduler.running == old(scheduler.running)
    ensures var jobs := RepeatJobs(IndexError(cases.records, cases.attributes), requests.records, requests.attributes);
      if old(scheduler.running) then r.Pass? && scheduler.entries == old(scheduler.entries) + jobs
      else scheduler.entries == old(scheduler.entries)
           && (jobs == [] ==> r.Pass?) && (jobs != [] ==> r == Fail(NoMethod("scheduler")))
  {
    var index := IndexError(cases.records, cases.attributes);
    var i := 0;
    while i < |index|
      invariant 0 <= i <= |index|
      invariant scheduler.running == old(scheduler.running)
      invariant old(scheduler.running) ==>
        scheduler.entries == old(scheduler.entries) + RepeatJobs(index[..i], requests.records, requests.attributes)
      invariant !old(scheduler.running) ==>
        scheduler.entries == old(scheduler.entries) && RepeatJobs(index[..i], requests.records, requests.attributes) == []
    {
      SweepStep(index, i, requests.records, requests.attributes);
      r := RequestRepeat.Repeat(index[i].0, index[i].1, requests, scheduler);
      if r.Fail? {
        return;
      }
      i := i + 1;
    }
    assert index[..i] == index;
    r := Pass;
  }
}
