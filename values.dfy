/**
 * Values shared by both engines: attribute names and values as the case
 * store holds them, the Ruby values a guard can produce, and the string
 * helpers the guards use (`casecmp?`, `present?`, `<=` on strings and
 * `String#to_date`).
 */
module Values {
  import opened Wrappers

  type Name = string
  type CaseId = string

  /** An attribute value: a string, or nil (`None`). */
  type Value = Option<string>

  /** The attribute map `show_attributes` returns for one case. */
  type Snapshot = map<Name, Value>

  /** The module name both handlers check a case's `type` against. */
  const HandlerType: string := "sd_full_auto_case"

  /** Reading a name through an `OpenStruct`: a missing name reads as nil. */
  function Lookup(s: Snapshot, n: Name): Value
  {
    if n in s then s[n] else None
  }

  /** The values a guard expression can evaluate to. */
  datatype RubyValue = RNil | RFalse | RTrue | RStr(s: string)

  /** Ruby truthiness: everything except nil and false. */
  predicate Truthy(v: RubyValue)
  {
    !v.RNil? && !v.RFalse?
  }

  function FromBool(b: bool): RubyValue
  {
    if b then RTrue else RFalse
  }

  function FromValue(v: Value): RubyValue
  {
    if v.None? then RNil else RStr(v.value)
  }

  function LowerChar(c: char): char
  {
    if 'A' <= c <= 'Z' then (c as int + 32) as char else c
  }

  /** ASCII lower-casing, as `String#downcase` does on ASCII text. */
  function Downcase(s: string): (r: string)
    ensures |r| == |s|
    ensures forall i :: 0 <= i < |s| ==> r[i] == LowerChar(s[i])
  {
    seq(|s|, i requires 0 <= i < |s| => LowerChar(s[i]))
  }

  /** `a.casecmp?(b)`: equality after case folding. */
  predicate CaseEqual(a: string, b: string)
  {
    Downcase(a) == Downcase(b)
  }

  lemma CaseEqualSymmetric(a: string, b: string)
    ensures CaseEqual(a, b) <==> CaseEqual(b, a)
  {
  }

  predicate IsSpace(c: char)
  {
    c == ' ' || c == '\t' || c == '\n' || c == '\r' || c == '\U{000C}' || c == '\U{000B}'
  }

  /** ActiveSupport's `blank?` on a string: empty or whitespace only. */
  predicate Blank(s: string)
  {
    forall i :: 0 <= i < |s| ==> IsSpace(s[i])
  }

  /** Ruby's `String#<=`: lexicographic order on characters. */
  predicate StrLe(a: string, b: string)
    decreases |a|
  {
    if a == [] then true
    else if b == [] then false
    else if a[0] == b[0] then StrLe(a[1..], b[1..])
    else a[0] < b[0]
  }

  predicate IsDigit(c: char)
  {
    '0' <= c <= '9'
  }

  function DigitValue(c: char): nat
    requires IsDigit(c)
  {
    c as int - '0' as int
  }

  predicate LeapYear(y: nat)
  {
    (y % 4 == 0 && y % 100 != 0) || y % 400 == 0
  }

  function DaysInMonth(y: nat, m: nat): nat
    requires 1 <= m <= 12
  {
    if m == 2 then (if LeapYear(y) then 29 else 28)
    else if m == 4 || m == 6 || m == 9 || m == 11 then 30
    else 31
  }

  /** A calendar date. */
  datatype Date = Date(year: nat, month: nat, day: nat)

  predicate ValidDate(d: Date)
  {
    1 <= d.month <= 12 && 1 <= d.day <= DaysInMonth(d.year, d.month)
  }

  /** A single number that orders dates chronologically. */
  function Ordinal(d: Date): nat
  {
    d.year * 416 + d.month * 32 + d.day
  }

  predicate DateBefore(a: Date, b: Date)
  {
    Ordinal(a) < Ordinal(b)
  }

  /** The string starts with `YYYY-MM-DD`. */
  predicate IsoPrefix(s: string)
  {
    |s| >= 10
    && IsDigit(s[0]) && IsDigit(s[1]) && IsDigit(s[2]) && IsDigit(s[3])
    && s[4] == '-' && IsDigit(s[5]) && IsDigit(s[6])
    && s[7] == '-' && IsDigit(s[8]) && IsDigit(s[9])
  }

  /**
   * `String#to_date` restricted to the ISO form the system writes
   * (`YYYY-MM-DD`, optionally followed by a time): the date, or `None` when
   * the text is not of that form or names no calendar day.
   */
  function ParseDate(s: string): (r: Option<Date>)
    ensures r.Some? ==> ValidDate(r.value)
  {
    if !IsoPrefix(s) then None
    else
      var d := Date(
        DigitValue(s[0]) * 1000 + DigitValue(s[1]) * 100 + DigitValue(s[2]) * 10 + DigitValue(s[3]),
        DigitValue(s[5]) * 10 + DigitValue(s[6]),
        DigitValue(s[8]) * 10 + DigitValue(s[9]));
      if ValidDate(d) then Some(d) else None
  }
}
