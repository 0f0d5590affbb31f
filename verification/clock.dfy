/** Times of day at minute granularity, as the converters produce them with strptime(..., "%H%M"). */
module Clock {
  import opened Wrappers
  import opened Text

  /** A time of day 00:00 .. 23:59 as minutes after midnight. */
  type Minute = m: int | 0 <= m < 1440

  predicate IsDigit(c: char) {
    '0' <= c <= '9'
  }

  function DigitValue(c: char): nat
    requires IsDigit(c)
  {
    c as int - '0' as int
  }

  /** A two-digit decimal field "00".."99". */
  function TwoDigits(s: string): nat
    requires |s| == 2 && IsDigit(s[0]) && IsDigit(s[1])
  {
    10 * DigitValue(s[0]) + DigitValue(s[1])
  }

  /** The HHMM parse: exactly four digits, hour below 24, minute below 60; anything else is malformed. */
  function ParseHHMM(s: string): Option<Minute> {
    if |s| == 4 && IsDigit(s[0]) && IsDigit(s[1]) && IsDigit(s[2]) && IsDigit(s[3])
       && TwoDigits(s[..2]) < 24 && TwoDigits(s[2..]) < 60
    then Some(TwoDigits(s[..2]) * 60 + TwoDigits(s[2..]))
    else None
  }

  function Pad2(n: nat): (r: string)
    requires n < 100
    ensures |r| == 2 && IsDigit(r[0]) && IsDigit(r[1]) && TwoDigits(r) == n
  {
    [DigitChar(n / 10), DigitChar(n % 10)]
  }

  /** The HHMM text of a time of day. */
  function FormatHHMM(m: Minute): (r: string)
    ensures |r| == 4
  {
    Pad2(m / 60) + Pad2(m % 60)
  }

  /** Every time of day is read back from its HHMM text. */
  lemma ParseFormat(m: Minute)
    ensures ParseHHMM(FormatHHMM(m)) == Some(m)
  {
    var s := FormatHHMM(m);
    assert s[..2] == Pad2(m / 60) && s[2..] == Pad2(m % 60);
  }

  /** Hours and minutes are recovered from minutes after midnight. */
  lemma SplitMinutes(h: nat, mm: nat)
    requires mm < 60
    ensures (h * 60 + mm) / 60 == h && (h * 60 + mm) % 60 == mm
  {
  }

  /** A two-digit field is the padded text of its value. */
  lemma PadTwoDigits(t: string)
    requires |t| == 2 && IsDigit(t[0]) && IsDigit(t[1])
    ensures TwoDigits(t) < 100 && Pad2(TwoDigits(t)) == t
  {
    var a, b := DigitValue(t[0]), DigitValue(t[1]);
    assert (10 * a + b) / 10 == a && (10 * a + b) % 10 == b;
  }

  /** A text the parser accepts is the canonical HHMM text of the time it yields: the parse is injective. */
  lemma FormatParse(s: string)
    requires ParseHHMM(s).Some?
    ensures FormatHHMM(ParseHHMM(s).value) == s
  {
    var h, mm := TwoDigits(s[..2]), TwoDigits(s[2..]);
    SplitMinutes(h, mm);
    PadTwoDigits(s[..2]);
    PadTwoDigits(s[2..]);
    assert s == s[..2] + s[2..];
  }

  /** datetime.time(hour=h, minute=m): a ValueError unless 0 <= h < 24 and 0 <= m < 60. */
  function MakeTime(h: int, m: int): (r: Option<Minute>)
    ensures r.Some? <==> 0 <= h < 24 && 0 <= m < 60
  {
    if 0 <= h < 24 && 0 <= m < 60 then Some(h * 60 + m) else None
  }

  /** The time of day datetime.time(h, m) builds has hour h and minute m. */
  lemma MakeTimeParts(h: int, m: int)
    requires MakeTime(h, m).Some?
    ensures MakeTime(h, m).value / 60 == h && MakeTime(h, m).value % 60 == m
  {
  }

  /** str() of a datetime.time, "HH:MM:00". */
  function TimeToString(m: Minute): string {
    Pad2(m / 60) + ":" + Pad2(m % 60) + ":00"
  }
}
