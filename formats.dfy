/**
 * The fixed-shape regular expressions the validators test, written as
 * predicates over character positions, and what their matches mean.
 */
module Formats {
  import opened Json

  /** `/^\d{2}-\d{2}-\d{2}$/`, the DD-MM-YY shape. Digits only; no calendar check. */
  predicate DateShape(s: string) {
    |s| == 8
    && IsDigit(s[0]) && IsDigit(s[1]) && s[2] == '-'
    && IsDigit(s[3]) && IsDigit(s[4]) && s[5] == '-'
    && IsDigit(s[6]) && IsDigit(s[7])
  }

  /** A string value of the DD-MM-YY shape (`typeof v === 'string' && dateRegex.test(v)`). */
  predicate DateString(v: JVal) {
    v.Str? && DateShape(v.s)
  }

  /** `v === undefined`, or a string of the DD-MM-YY shape. */
  predicate DateIfPresent(v: JVal) {
    v.Undef? || DateString(v)
  }

  /** `/^\d{2}:\d{2}-\d{2}:\d{2}$/`, the HH:MM-HH:MM shape. Digits only; no range check. */
  predicate TimeSlotShape(s: string) {
    |s| == 11
    && IsDigit(s[0]) && IsDigit(s[1]) && s[2] == ':' && IsDigit(s[3]) && IsDigit(s[4])
    && s[5] == '-'
    && IsDigit(s[6]) && IsDigit(s[7]) && s[8] == ':' && IsDigit(s[9]) && IsDigit(s[10])
  }

  /** A string value of the HH:MM-HH:MM shape. */
  predicate SlotString(v: JVal) {
    v.Str? && TimeSlotShape(v.s)
  }

  /** `v === undefined`, or a string of the HH:MM-HH:MM shape. */
  predicate SlotIfPresent(v: JVal) {
    v.Undef? || SlotString(v)
  }

  /** Either date or slot shape accepts strings that name no real day or time. */
  lemma ShapesAreNotRanges()
    ensures DateShape("99-99-99") && DateShape("31-02-24")
    ensures TimeSlotShape("99:99-00:00")
  {
  }

  predicate IsMinuteTens(c: char) {
    '0' <= c <= '5'
  }

  /** `/^([01]?[0-9]|2[0-3]):[0-5][0-9]$/`: H:MM or HH:MM on a 24-hour clock. */
  predicate ClockTime(s: string) {
    (|s| == 4 && IsDigit(s[0]) && s[1] == ':' && IsMinuteTens(s[2]) && IsDigit(s[3]))
    || (|s| == 5
        && (((s[0] == '0' || s[0] == '1') && IsDigit(s[1])) || (s[0] == '2' && '0' <= s[1] <= '3'))
        && s[2] == ':' && IsMinuteTens(s[3]) && IsDigit(s[4]))
  }

  /** A string value matching the clock expression. */
  predicate ClockString(v: JVal) {
    v.Str? && ClockTime(v.s)
  }

  /** `v === undefined`, or a string matching the clock expression. */
  predicate ClockIfPresent(v: JVal) {
    v.Undef? || ClockString(v)
  }

  /** A clock time written with a two-digit hour (the form an ISO date-time accepts). */
  predicate TwoDigitHour(s: string) {
    ClockTime(s) && |s| == 5
  }

  function Hour(s: string): nat
    requires ClockTime(s)
  {
    if |s| == 4 then DigitValue(s[0]) else 10 * DigitValue(s[0]) + DigitValue(s[1])
  }

  function Minute(s: string): nat
    requires ClockTime(s)
  {
    10 * DigitValue(s[|s| - 2]) + DigitValue(s[|s| - 1])
  }

  /** Minutes since midnight. */
  function MinuteOfDay(s: string): nat
    requires ClockTime(s)
  {
    Hour(s) * 60 + Minute(s)
  }

  /** A matching time names an hour 0-23 and a minute 00-59. */
  lemma ClockTimeInRange(s: string)
    requires ClockTime(s)
    ensures Hour(s) < 24 && Minute(s) < 60
    ensures MinuteOfDay(s) < 24 * 60
  {
  }

  function DigitChar(d: nat): (c: char)
    requires d < 10
    ensures IsDigit(c) && DigitValue(c) == d
  {
    ('0' as int + d) as char
  }

  function TwoDigits(n: nat): (r: string)
    requires n < 100
  {
    [DigitChar(n / 10), DigitChar(n % 10)]
  }

  /** HH:MM for an hour and a minute. */
  function FormatClock(h: nat, m: nat): string
    requires h < 24 && m < 60
  {
    TwoDigits(h) + ":" + TwoDigits(m)
  }

  /** Every hour 0-23 and minute 0-59, written HH:MM, matches and reads back as itself. */
  lemma FormatClockRoundTrip(h: nat, m: nat)
    requires h < 24 && m < 60
    ensures TwoDigitHour(FormatClock(h, m))
    ensures Hour(FormatClock(h, m)) == h && Minute(FormatClock(h, m)) == m
  {
    var s := FormatClock(h, m);
    assert s[0] == DigitChar(h / 10) && s[1] == DigitChar(h % 10);
    assert s[3] == DigitChar(m / 10) && s[4] == DigitChar(m % 10);
  }

  // ---------------------------------------------------------------------
  // e-mail

  /** No white space and no '@': the class `[^\s@]`. */
  predicate NoSpaceOrAt(s: string) {
    forall i :: 0 <= i < |s| ==> !IsWhitespace(s[i]) && s[i] != '@'
  }

  /** `[^\s@]+\.[^\s@]+`: no white space or '@', and a '.' with a character on each side. */
  predicate DomainShape(d: string) {
    NoSpaceOrAt(d) && exists j :: 0 < j < |d| - 1 && d[j] == '.'
  }

  /** `/^[^\s@]+@[^\s@]+\.[^\s@]+$/`, read by positions: a non-empty local part, '@', a domain. */
  predicate EmailShape(s: string) {
    exists k :: 0 < k < |s| && s[k] == '@' && NoSpaceOrAt(s[..k]) && DomainShape(s[k + 1..])
  }

  /** A string value matching the e-mail expression. */
  predicate EmailString(v: JVal) {
    v.Str? && EmailShape(v.s)
  }

  /** `v === undefined`, or a string matching the e-mail expression. */
  predicate EmailIfPresent(v: JVal) {
    v.Undef? || EmailString(v)
  }

  function EmailOf(local: string, host: string, top: string): string {
    local + "@" + host + "." + top
  }

  /** The regular expression read as a concatenation of its five parts. */
  ghost predicate EmailPieces(s: string) {
    exists local, host, top ::
      s == EmailOf(local, host, top)
      && |local| > 0 && |host| > 0 && |top| > 0
      && NoSpaceOrAt(local) && NoSpaceOrAt(host) && NoSpaceOrAt(top)
  }

  /** The position reading and the concatenation reading of the e-mail expression agree. */
  lemma EmailShapeIffPieces(s: string)
    ensures EmailShape(s) <==> EmailPieces(s)
  {
    if EmailShape(s) {
      EmailShapeSplits(s);
    }
    if EmailPieces(s) {
      var local, host, top :| s == EmailOf(local, host, top)
        && |local| > 0 && |host| > 0 && |top| > 0
        && NoSpaceOrAt(local) && NoSpaceOrAt(host) && NoSpaceOrAt(top);
      PiecesMatch(local, host, top);
    }
  }

  /** The front part of a string without white space or '@' has none either. */
  lemma NoSpaceOrAtPrefix(s: string, n: nat)
    requires n <= |s| && NoSpaceOrAt(s)
    ensures NoSpaceOrAt(s[..n])
  {
    forall i | 0 <= i < n ensures s[..n][i] == s[i] { }
  }

  /** The back part of a string without white space or '@' has none either. */
  lemma NoSpaceOrAtSuffix(s: string, n: nat)
    requires n <= |s| && NoSpaceOrAt(s)
    ensures NoSpaceOrAt(s[n..])
  {
    forall i | 0 <= i < |s| - n ensures s[n..][i] == s[n + i] { }
  }

  /** Cutting a string at an '@' and a later '.' and gluing the pieces back gives the string. */
  lemma Reassemble(s: string, k: nat, j: nat)
    requires k < |s| && s[k] == '@' && j < |s[k + 1..]| && s[k + 1..][j] == '.'
    ensures s == EmailOf(s[..k], s[k + 1..][..j], s[k + 1..][j + 1..])
  {
    var d := s[k + 1..];
    assert d == d[..j] + "." + d[j + 1..];
    assert s == s[..k] + "@" + d;
  }

  lemma EmailShapeSplits(s: string)
    requires EmailShape(s)
    ensures EmailPieces(s)
  {
    var k :| 0 < k < |s| && s[k] == '@' && NoSpaceOrAt(s[..k]) && DomainShape(s[k + 1..]);
    var d := s[k + 1..];
    var j :| 0 < j < |d| - 1 && d[j] == '.';
    NoSpaceOrAtPrefix(d, j);
    NoSpaceOrAtSuffix(d, j + 1);
    Reassemble(s, k, j);
  }

  lemma PiecesMatch(local: string, host: string, top: string)
    requires |local| > 0 && |host| > 0 && |top| > 0
    requires NoSpaceOrAt(local) && NoSpaceOrAt(host) && NoSpaceOrAt(top)
    ensures EmailShape(EmailOf(local, host, top))
  {
    var s := EmailOf(local, host, top);
    var k := |local|;
    var d := host + "." + top;
    assert s == local + "@" + d;
    assert s[k] == '@';
    assert s[..k] == local;
    assert s[k + 1..] == d;
    assert d[|host|] == '.';
    forall i | 0 <= i < |d| ensures !IsWhitespace(d[i]) && d[i] != '@' {
      if i < |host| {
        assert d[i] == host[i];
      } else if i > |host| {
        assert d[i] == top[i - |host| - 1];
      }
    }
    assert DomainShape(d);
  }

  /** A matching address has no white space and exactly one '@'. */
  lemma EmailShapeHasOneAt(s: string)
    requires EmailShape(s)
    ensures forall i :: 0 <= i < |s| ==> !IsWhitespace(s[i])
    ensures exists k :: 0 <= k < |s| && s[k] == '@' && forall i :: 0 <= i < |s| && s[i] == '@' ==> i == k
  {
    var k :| 0 < k < |s| && s[k] == '@' && NoSpaceOrAt(s[..k]) && DomainShape(s[k + 1..]);
    forall i | 0 <= i < |s| ensures !IsWhitespace(s[i]) && (s[i] == '@' ==> i == k) {
      if i < k {
        assert s[i] == s[..k][i];
      } else if i > k {
        assert s[i] == s[k + 1..][i - k - 1];
      }
    }
  }
}
