/**
 * `SDFullAutoCase::Rejector`: the daily sweep over cases whose result was
 * not collected in time. The cases in `issuance` with a
 * `planned_rejecting_date` of yesterday or earlier are split by their
 * `close_on_reject` attribute: those carrying the mark are closed, the others
 * are sent back (`rejecting`). Two bulk updates, the closing one first; the
 * per-case state engine is not involved.
 */
module Rejector {
  import opened Wrappers
  import opened Values
  import opened Errors
  import opened CaseStore
  import ChangeStateTo

  /** The day before a valid date, in the proleptic Gregorian calendar. */
  function PreviousDay(d: Date): (r: Date)
    requires ValidDate(d) && d != Date(0, 1, 1)
    ensures ValidDate(r) && DateBefore(r, d)
  {
    if d.day > 1 then Date(d.year, d.month, d.day - 1)
    else if d.month > 1 then Date(d.year, d.month - 1, DaysInMonth(d.year, d.month - 1))
    else Date(d.year - 1, 12, 31)
  }

  /** No valid date lies strictly between a date and the day before it. */
  lemma PreviousDayIsAdjacent(d: Date, e: Date)
    requires ValidDate(d) && d != Date(0, 1, 1) && ValidDate(e)
    ensures DateBefore(PreviousDay(d), e) ==> !DateBefore(e, d)
  {
    var p := PreviousDay(d);
    OrdinalBounds(d);
    OrdinalBounds(e);
    OrdinalBounds(p);
    if e.year == d.year && e.month == d.month {
      assert Ordinal(e) - Ordinal(d) == e.day - d.day;
    } else if e.year == d.year && e.month + 1 == d.month {
      assert e.day <= DaysInMonth(d.year, d.month - 1);
    }
  }

  /** The ordinal of a valid date lies within the block of its year and of its month. */
  lemma OrdinalBounds(d: Date)
    requires ValidDate(d)
    ensures d.year * 416 + 33 <= Ordinal(d) <= d.year * 416 + 415
    ensures d.year * 416 + d.month * 32 + 1 <= Ordinal(d) <= d.year * 416 + d.month * 32 + 31
  {
  }

  function DigitChar(n: nat): (c: char)
    requires n < 10
    ensures IsDigit(c) && DigitValue(c) == n
  {
    ('0' as int + n) as char
  }

  /** A number below 100 as two decimal digits. */
  function TwoDigits(n: nat): (s: string)
    requires n < 100
    ensures |s| == 2 && IsDigit(s[0]) && IsDigit(s[1]) && DigitValue(s[0]) * 10 + DigitValue(s[1]) == n
  {
    [DigitChar(n / 10), DigitChar(n % 10)]
  }

  /** `Date#to_s` for years below 10000: `YYYY-MM-DD`. */
  function DateString(d: Date): (s: string)
    requires ValidDate(d) && d.year < 10000
    ensures |s| == 10
  {
    TwoDigits(d.year / 100) + TwoDigits(d.year % 100) + "-" + TwoDigits(d.month) + "-" + TwoDigits(d.day)
  }

  /** Reading the written date back gives the date. */
  lemma DateStringRoundTrip(d: Date)
    requires ValidDate(d) && d.year < 10000
    ensures ParseDate(DateString(d)) == Some(d)
  {
    var s := DateString(d);
    var y1, y2, m, dd := TwoDigits(d.year / 100), TwoDigits(d.year % 100), TwoDigits(d.month), TwoDigits(d.day);
    assert s[0] == y1[0] && s[1] == y1[1] && s[2] == y2[0] && s[3] == y2[1];
    assert s[4] == '-' && s[5] == m[0] && s[6] == m[1] && s[7] == '-' && s[8] == dd[0] && s[9] == dd[1];
    assert IsoPrefix(s);
    assert (d.year / 100) * 100 + d.year % 100 == d.year;
  }

  /** Two-digit strings compare as their numbers do. */
  lemma TwoDigitsOrder(m: nat, n: nat)
    requires m < 100 && n < 100
    ensures StrLe(TwoDigits(m), TwoDigits(n)) <==> m <= n
    ensures TwoDigits(m) == TwoDigits(n) <==> m == n
  {
    var a, b := TwoDigits(m), TwoDigits(n);
    assert a[1..][1..] == [] && b[1..][1..] == [];
    assert a[1..] == [a[1]] && b[1..] == [b[1]];
    assert a[0] < b[0] <==> m / 10 < n / 10;
    assert a[1] < b[1] <==> m % 10 < n % 10;
    assert m == m / 10 * 10 + m % 10 && n == n / 10 * 10 + n % 10;
    assert StrLe(a[1..], b[1..]) <==> a[1] <= b[1] by {
      assert StrLe(a[1..][1..], b[1..][1..]);
    }
    assert StrLe(a, b) <==> a[0] < b[0] || (a[0] == b[0] && a[1] <= b[1]);
  }

  /**
   * Comparing two strings of which the first parts have equal length: the
   * first parts decide unless they are equal.
   */
  lemma {:induction false} StrLeAppend(a1: string, a2: string, b1: string, b2: string)
    requires |a1| == |b1|
    ensures StrLe(a1 + a2, b1 + b2) == if a1 == b1 then StrLe(a2, b2) else StrLe(a1, b1)
    decreases |a1|
  {
    if a1 != [] {
      assert (a1 + a2)[0] == a1[0] && (b1 + b2)[0] == b1[0];
      assert (a1 + a2)[1..] == a1[1..] + a2 && (b1 + b2)[1..] == b1[1..] + b2;
      StrLeAppend(a1[1..], a2, b1[1..], b2);
      assert a1 == [a1[0]] + a1[1..] && b1 == [b1[0]] + b1[1..];
    } else {
      assert a1 + a2 == a2 && b1 + b2 == b2;
    }
  }

  /** Written dates compare field by field: the century, the year within it, the month, the day. */
  lemma DateStringFields(a: Date, b: Date)
    requires ValidDate(a) && a.year < 10000 && ValidDate(b) && b.year < 10000
    ensures StrLe(DateString(a), DateString(b)) <==>
      if a.year / 100 != b.year / 100 then a.year / 100 < b.year / 100
      else if a.year % 100 != b.year % 100 then a.year % 100 < b.year % 100
      else if a.month != b.month then a.month < b.month
      else a.day <= b.day
  {
    var ya, yb := TwoDigits(a.year / 100), TwoDigits(b.year / 100);
    var za, zb := TwoDigits(a.year % 100), TwoDigits(b.year % 100);
    var ma, mb := TwoDigits(a.month), TwoDigits(b.month);
    var da, db := TwoDigits(a.day), TwoDigits(b.day);
    TwoDigitsOrder(a.year / 100, b.year / 100);
    TwoDigitsOrder(a.year % 100, b.year % 100);
    TwoDigitsOrder(a.month, b.month);
    TwoDigitsOrder(a.day, b.day);
    assert DateString(a) == ya + (za + ("-" + (ma + ("-" + da))));
    assert DateString(b) == yb + (zb + ("-" + (mb + ("-" + db))));
    StrLeAppend(ya, za + ("-" + (ma + ("-" + da))), yb, zb + ("-" + (mb + ("-" + db))));
    StrLeAppend(za, "-" + (ma + ("-" + da)), zb, "-" + (mb + ("-" + db)));
    StrLeAppend("-", ma + ("-" + da), "-", mb + ("-" + db));
    StrLeAppend(ma, "-" + da, mb, "-" + db);
    StrLeAppend("-", da, "-", db);
  }

  /**
   * Written dates compare as strings exactly as they compare as dates, so the
   * index's string comparison with `yesterday` selects the dates up to it.
   */
  lemma DateStringOrder(a: Date, b: Date)
    requires ValidDate(a) && a.year < 10000 && ValidDate(b) && b.year < 10000
    ensures StrLe(DateString(a), DateString(b)) <==> !DateBefore(b, a)
  {
    DateStringFields(a, b);
    assert a.year == (a.year / 100) * 100 + a.year % 100;
    assert b.year == (b.year / 100) * 100 + b.year % 100;
    OrdinalBounds(a);
    OrdinalBounds(b);
  }

  /** `yesterday`: the day before `today`, written as `Date#to_s` does. */
  function Yesterday(today: Date): (s: string)
    requires ValidDate(today) && today != Date(0, 1, 1) && today.year < 10000
  {
    DateString(PreviousDay(today))
  }

  /**
   * A case in `issuance` whose `planned_rejecting_date` was written from a
   * date is expired on `today` exactly when that date is before today.
   */
  lemma ExpiredWhenDueBeforeToday(store: Attributes, id: CaseId, today: Date, due: Date)
    requires ValidDate(today) && today != Date(0, 1, 1) && today.year < 10000
    requires ValidDate(due) && due.year < 10000
    requires Lookup(AttributesOf(store, id), "state") == Some("issuance")
    requires Lookup(AttributesOf(store, id), "planned_rejecting_date") == Some(DateString(due))
    ensures IssuanceExpired(store, id, Yesterday(today)) <==> DateBefore(due, today)
  {
    DateStringOrder(due, PreviousDay(today));
    PreviousDayIsAdjacent(today, due);
  }

  /** `expired_to_close_cases_ids`: the ids whose `close_on_reject` equals the mark, in index order. */
  function CloseIds(entries: seq<IndexEntry>, mark: Value): (r: seq<CaseId>)
    ensures |r| <= |entries|
  {
    if entries == [] then []
    else (if entries[0].closeOnReject == mark then [entries[0].id] else []) + CloseIds(entries[1..], mark)
  }

  /** `expired_to_reject_cases_ids`: the ids whose `close_on_reject` differs from the mark, in index order. */
  function RejectIds(entries: seq<IndexEntry>, mark: Value): (r: seq<CaseId>)
    ensures |r| <= |entries|
  {
    if entries == [] then []
    else (if entries[0].closeOnReject != mark then [entries[0].id] else []) + RejectIds(entries[1..], mark)
  }

  /** Every index entry goes to exactly one of the two lists. */
  lemma {:induction false} PartitionSizes(entries: seq<IndexEntry>, mark: Value)
    ensures |CloseIds(entries, mark)| + |RejectIds(entries, mark)| == |entries|
  {
    if entries != [] {
      PartitionSizes(entries[1..], mark);
    }
  }

  /** An id is closed exactly when an entry with that id carries the mark. */
  lemma {:induction false} CloseIdsMembers(entries: seq<IndexEntry>, mark: Value, id: CaseId)
    ensures id in CloseIds(entries, mark) <==> IndexEntry(id, mark) in entries
  {
    if entries != [] {
      CloseIdsMembers(entries[1..], mark, id);
      assert entries == [entries[0]] + entries[1..];
    }
  }

  /** An id is sent back exactly when an entry with that id carries something other than the mark. */
  lemma {:induction false} RejectIdsMembers(entries: seq<IndexEntry>, mark: Value, id: CaseId)
    ensures id in RejectIds(entries, mark) <==> exists v :: v != mark && IndexEntry(id, v) in entries
  {
    if entries != [] {
      RejectIdsMembers(entries[1..], mark, id);
      assert entries == [entries[0]] + entries[1..];
      if entries[0].id == id && entries[0].closeOnReject != mark {
        assert IndexEntry(id, entries[0].closeOnReject) in entries;
      }
    }
  }

  /** `update_to_close_params` without the ids. */
  function CloseChanges(closedAt: string): (r: map<Name, Value>)
    ensures r.Keys == {"state", "case_status", "closed_date"}
    ensures r["state"] == Some("closed") && r["case_status"] == Some(ChangeStateTo.StatusClosed)
  {
    map["state" := Some("closed"), "case_status" := Some(ChangeStateTo.StatusClosed), "closed_date" := Some(closedAt)]
  }

  /** `update_to_reject_params` without the ids. */
  function RejectChanges(rejectedAt: string): (r: map<Name, Value>)
    ensures r.Keys == {"state", "case_status", "rejecting_date"}
    ensures r["state"] == Some("rejecting") && r["case_status"] == Some(ChangeStateTo.StatusRejecting)
  {
    map["state" := Some("rejecting"), "case_status" := Some(ChangeStateTo.StatusRejecting),
        "rejecting_date" := Some(rejectedAt)]
  }

  /** The case attributes after the two updates of a sweep over `entries`. */
  function Swept(store: Attributes, entries: seq<IndexEntry>, mark: Value, closedAt: string, rejectedAt: string): Attributes
  {
    Updated(Updated(store, CloseIds(entries, mark), CloseChanges(closedAt)), RejectIds(entries, mark),
            RejectChanges(rejectedAt))
  }

  /** A case that is not an expired `issuance` case keeps all of its attributes. */
  lemma SweepLeavesOthers(records: seq<CaseRecord>, store: Attributes, yesterday: string, mark: Value,
                          closedAt: string, rejectedAt: string, id: CaseId)
    requires IndexIssuance(records, store, yesterday).Success?
    requires !IssuanceExpired(store, id, yesterday)
    ensures AttributesOf(Swept(store, IndexIssuance(records, store, yesterday).value, mark, closedAt, rejectedAt), id)
            == AttributesOf(store, id)
  {
    var entries := IndexIssuance(records, store, yesterday).value;
    CloseIdsMembers(entries, mark, id);
    RejectIdsMembers(entries, mark, id);
    var closed := Updated(store, CloseIds(entries, mark), CloseChanges(closedAt));
    UpdateEffectAt(store, CloseIds(entries, mark), CloseChanges(closedAt));
    UpdateEffectAt(closed, RejectIds(entries, mark), RejectChanges(rejectedAt));
  }

  /**
   * An expired `issuance` case is closed when it carries the mark and sent
   * back otherwise, with the new state, status and date added to its
   * attributes.
   */
  lemma SweepMovesExpired(records: seq<CaseRecord>, store: Attributes, yesterday: string, mark: Value,
                          closedAt: string, rejectedAt: string, i: nat)
    requires IndexIssuance(records, store, yesterday).Success?
    requires i < |records| && IssuanceExpired(store, records[i].id, yesterday)
    ensures var id := records[i].id;
      var after := AttributesOf(Swept(store, IndexIssuance(records, store, yesterday).value, mark, closedAt, rejectedAt), id);
      && (Lookup(AttributesOf(store, id), "close_on_reject") == mark ==> after == AttributesOf(store, id) + CloseChanges(closedAt))
      && (Lookup(AttributesOf(store, id), "close_on_reject") != mark ==> after == AttributesOf(store, id) + RejectChanges(rejectedAt))
  {
    var id := records[i].id;
    var entries := IndexIssuance(records, store, yesterday).value;
    var v := Lookup(AttributesOf(store, id), "close_on_reject");
    assert IndexEntry(id, v) in entries;
    CloseIdsMembers(entries, mark, id);
    RejectIdsMembers(entries, mark, id);
    if v == mark {
      assert entries == IssuanceEntries(records, store, yesterday);
      assert forall w :: IndexEntry(id, w) in entries ==> w == mark;
    }
    var closed := Updated(store, CloseIds(entries, mark), CloseChanges(closedAt));
    UpdateEffectAt(store, CloseIds(entries, mark), CloseChanges(closedAt));
    UpdateEffectAt(closed, RejectIds(entries, mark), RejectChanges(rejectedAt));
  }

  class Rejector {
    /** `@expired_cases`, filled by the first successful index query. */
    var expired: Option<seq<IndexEntry>>

    constructor ()
      ensures expired.None?
    {
      expired := None;
    }

    /** `expired_cases`: the memoised `index` of expired `issuance` cases; a raising query memoises nothing. */
    method ExpiredCases(cases: Cases, today: Date) returns (r: Result<seq<IndexEntry>, Error>)
      requires ValidDate(today) && today != Date(0, 1, 1) && today.year < 10000
      modifies this
      ensures old(expired).Some? ==> r == Success(old(expired).value) && expired == old(expired)
      ensures old(expired).None? ==> r == IndexIssuance(cases.records, cases.attributes, Yesterday(today))
      ensures old(expired).None? ==> expired == (if r.Success? then Some(r.value) else None)
    {
      if expired.Some? {
        return Success(expired.value);
      }
      r := IndexIssuance(cases.records, cases.attributes, Yesterday(today));
      if r.Success? {
        expired := Some(r.value);
      }
    }

    /**
     * `reject`: the closing update, then the sending-back update, both over
     * the same memoised index. A failing index query raises before either
     * update.
     */
    method Reject(cases: Cases, today: Date, mark: Value, closedAt: string, rejectedAt: string)
      returns (r: Outcome<Error>)
      requires ValidDate(today) && today != Date(0, 1, 1) && today.year < 10000
      modifies this, cases
      ensures cases.records == old(cases.records)
      ensures var idx := if old(expired).Some? then Success(old(expired).value)
                         else IndexIssuance(old(cases.records), old(cases.attributes), Yesterday(today));
        && (idx.Failure? ==> r == Fail(idx.error) && cases.attributes == old(cases.attributes))
        && (idx.Success? ==>
              (r.Pass? && expired == Some(idx.value)
               && cases.attributes == Swept(old(cases.attributes), idx.value, mark, closedAt, rejectedAt)))
    {
      var closeIdx := ExpiredCases(cases, today);
      if closeIdx.Failure? {
        return Fail(closeIdx.error);
      }
      cases.Update(CloseIds(closeIdx.value, mark), CloseChanges(closedAt));
      var rejectIdx := ExpiredCases(cases, today);
      cases.Update(RejectIds(rejectIdx.value, mark), RejectChanges(rejectedAt));
      r := Pass;
    }
  }

  /** `Rejector.reject`: a fresh rejector, so the index is queried once, before both updates. */
  method RejectExpired(cases: Cases, today: Date, mark: Value, closedAt: string, rejectedAt: string)
    returns (r: Outcome<Error>)
    requires ValidDate(today) && today != Date(0, 1, 1) && today.year < 10000
    modifies cases
    ensures cases.records == old(cases.records)
    ensures var idx := IndexIssuance(old(cases.records), old(cases.attributes), Yesterday(today));
      && (idx.Failure? ==> r == Fail(idx.error) && cases.attributes == old(cases.attributes))
      && (idx.Success? ==> r.Pass? && cases.attributes == Swept(old(cases.attributes), idx.value, mark, closedAt, rejectedAt))
  {
    var rejector := new Rejector();
    r := rejector.Reject(cases, today, mark, closedAt, rejectedAt);
  }
}
