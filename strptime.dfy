/**
  The three `datetime.strptime` formats the parsers use, under the English
  locale:

    "%I:%M%p %Y-%m-%d"   full leave time,   e.g. "9:59pm 2018-02-13"
    "%I:%M%p"            short leave time,  e.g. "12:09am"
    "%I:%M:%S %p"        last update,       e.g. "08:53:10 pm"

  Python compiles each directive to a regular expression (case-insensitive,
  anchored at the start, and the whole string must be consumed):

    %I  1[0-2]|0[1-9]|[1-9]        %M  [0-5]\d|\d       %S  6[0-1]|[0-5]\d|\d
    %Y  \d\d\d\d                   %m  1[0-2]|0[1-9]|[1-9]
    %d  3[01]|[12]\d|0[1-9]|[1-9]| [1-9]
    %p  am|pm                      a blank in the format: \s+

  Every numeric directive here is followed by a non-digit (':', '-', a blank,
  the meridiem or the end of the string), so what it matches is exactly the
  maximal run of digits at that point; a run of the wrong length or value
  makes the whole match fail.  After matching, `datetime(...)` refuses
  seconds 60 and 61, year 0 and a day past the end of its month, each with
  ValueError; the bounds below fold those refusals in.
*/
module Strptime {
  import opened Wrappers
  import opened Civil
  import opened Ascii

  /** A wall-clock reading in 24-hour form. */
  datatype Clock = Clock(hour: int, minute: int, second: int)

  predicate ValidClock(c: Clock) {
    0 <= c.hour < 24 && 0 <= c.minute < 60 && 0 <= c.second < 60
  }

  predicate IsDigit(c: char) { '0' <= c <= '9' }

  predicate AllDigits(s: string) {
    forall i | 0 <= i < |s| :: IsDigit(s[i])
  }

  function DigitValue(c: char): nat
    requires IsDigit(c)
  {
    c as int - '0' as int
  }

  /** The value of a decimal numeral, most significant digit first. */
  function Decimal(s: string): nat
    requires AllDigits(s)
    decreases |s|
  {
    if s == [] then 0 else 10 * Decimal(s[..|s| - 1]) + DigitValue(s[|s| - 1])
  }

  /** The length of the run of digits that starts `s`. */
  function DigitRun(s: string): (n: nat)
    ensures n <= |s|
    ensures forall i | 0 <= i < n :: IsDigit(s[i])
    ensures n < |s| ==> !IsDigit(s[n])
  {
    if s != [] && IsDigit(s[0]) then 1 + DigitRun(s[1..]) else 0
  }

  /**
    A numeric directive: the digit run that starts `s` must have `minLen..maxLen`
    digits and a value in `lo..hi`; yields the value and what follows the run.
  */
  function Number(s: string, minLen: nat, maxLen: nat, lo: nat, hi: nat): (r: Option<(nat, string)>)
    ensures r.Some? ==> lo <= r.value.0 <= hi && minLen <= |s| - |r.value.1| <= maxLen
    ensures r.Some? ==> r.value.1 == s[|s| - |r.value.1|..]
  {
    var n := DigitRun(s);
    assert AllDigits(s[..n]);
    if minLen <= n <= maxLen && lo <= Decimal(s[..n]) <= hi then Some((Decimal(s[..n]), s[n..])) else None
  }

  function Hour12(s: string): (r: Option<(nat, string)>)   // %I
    ensures r.Some? ==> 1 <= r.value.0 <= 12
  {
    Number(s, 1, 2, 1, 12)
  }

  function Minute(s: string): (r: Option<(nat, string)>)   // %M
    ensures r.Some? ==> r.value.0 <= 59
  {
    Number(s, 1, 2, 0, 59)
  }

  function Second(s: string): (r: Option<(nat, string)>)   // %S, then datetime()
    ensures r.Some? ==> r.value.0 <= 59
  {
    Number(s, 1, 2, 0, 59)
  }

  function Year(s: string): Option<(nat, string)> { Number(s, 4, 4, 1, 9999) }    // %Y, then datetime()
  function Month(s: string): Option<(nat, string)> { Number(s, 1, 2, 1, 12) }     // %m

  /** `%d`, which is the last directive of its format and so must take the rest of the string. */
  function DayOfMonth(s: string): (r: Option<nat>)
    ensures r.Some? ==> 1 <= r.value <= 31
  {
    if |s| == 2 && IsDigit(s[0]) && IsDigit(s[1]) && 1 <= Decimal(s) <= 31 then Some(Decimal(s))
    else if |s| == 1 && IsDigit(s[0]) && s[0] != '0' then Some(DigitValue(s[0]))
    else if |s| == 2 && s[0] == ' ' && IsDigit(s[1]) && s[1] != '0' then Some(DigitValue(s[1]))
    else None
  }

  function Literal(c: char, s: string): Option<string> {
    if s != [] && s[0] == c then Some(s[1..]) else None
  }

  /** The characters for which Python's `str.isspace` holds, which `\s` matches. */
  predicate IsSpace(c: char) {
    || '\U{0009}' <= c <= '\U{000D}'
    || '\U{001C}' <= c <= '\U{0020}'
    || c == '\U{0085}' || c == '\U{00A0}' || c == '\U{1680}'
    || '\U{2000}' <= c <= '\U{200A}'
    || c == '\U{2028}' || c == '\U{2029}' || c == '\U{202F}' || c == '\U{205F}' || c == '\U{3000}'
  }

  function SpaceRun(s: string): (n: nat)
    ensures n <= |s|
  {
    if s != [] && IsSpace(s[0]) then 1 + SpaceRun(s[1..]) else 0
  }

  /** A blank in the format, `\s+`. */
  function Spaces(s: string): Option<string> {
    var n := SpaceRun(s);
    if n >= 1 then Some(s[n..]) else None
  }

  /** `%p`, matched without regard to case; yields whether it was "pm". */
  function Meridiem(s: string): Option<(bool, string)> {
    if |s| >= 2 && (LowerChar(s[0]) == 'a' || LowerChar(s[0]) == 'p') && LowerChar(s[1]) == 'm'
    then Some((LowerChar(s[0]) == 'p', s[2..]))
    else None
  }

  /** How strptime turns %I and %p into an hour: 12am is 0, 12pm is 12, other pm hours gain 12. */
  function To24(h12: nat, pm: bool): (hour: nat)
    ensures 1 <= h12 <= 12 ==> hour < 24
  {
    if pm then (if h12 == 12 then 12 else h12 + 12)
    else (if h12 == 12 then 0 else h12)
  }

  /** "%I:%M%p %Y-%m-%d"; seconds are always 0. */
  function ParseDateForm(s: string): (r: Option<(Date, Clock)>)
    ensures r.Some? ==> ValidDate(r.value.0) && ValidClock(r.value.1) && r.value.1.second == 0
  {
    var h :- Hour12(s);
    var r1 :- Literal(':', h.1);
    var m :- Minute(r1);
    var p :- Meridiem(m.1);
    var r2 :- Spaces(p.1);
    var y :- Year(r2);
    var r3 :- Literal('-', y.1);
    var mo :- Month(r3);
    var r4 :- Literal('-', mo.1);
    var d :- DayOfMonth(r4);
    var date := Date(y.0, mo.0, d);
    if ValidDate(date) then Some((date, Clock(To24(h.0, p.0), m.0, 0))) else None
  }

  /** "%I:%M%p"; seconds are always 0. */
  function ParseTimeForm(s: string): (r: Option<Clock>)
    ensures r.Some? ==> ValidClock(r.value) && r.value.second == 0
  {
    var h :- Hour12(s);
    var r1 :- Literal(':', h.1);
    var m :- Minute(r1);
    var p :- Meridiem(m.1);
    if p.1 == [] then Some(Clock(To24(h.0, p.0), m.0, 0)) else None
  }

  /** "%I:%M:%S %p". */
  function ParseSecondsForm(s: string): (r: Option<Clock>)
    ensures r.Some? ==> ValidClock(r.value)
  {
    var h :- Hour12(s);
    var r1 :- Literal(':', h.1);
    var m :- Minute(r1);
    var r2 :- Literal(':', m.1);
    var sec :- Second(r2);
    var r3 :- Spaces(sec.1);
    var p :- Meridiem(r3);
    if p.1 == [] then Some(Clock(To24(h.0, p.0), m.0, sec.0)) else None
  }

  // ---------------------------------------------------------------------
  // Rendering, in the shapes TransLink emits, as the partner of parsing.

  function DigitChar(n: nat): char
    requires n < 10
  {
    (n + '0' as int) as char
  }

  function Pad2(n: nat): string
    requires n < 100
  {
    [DigitChar(n / 10), DigitChar(n % 10)]
  }

  function Pad4(n: nat): string
    requires n < 10000
  {
    [DigitChar(n / 1000), DigitChar(n / 100 % 10), DigitChar(n / 10 % 10), DigitChar(n % 10)]
  }

  /** The shortest numeral of `n`, as in "9:59pm". */
  function Unpadded(n: nat): string
    requires n < 100
  {
    if n < 10 then [DigitChar(n)] else Pad2(n)
  }

  function Hour12Of(hour: nat): nat {
    if hour % 12 == 0 then 12 else hour % 12
  }

  function MeridiemOf(hour: nat): string {
    if hour < 12 then "am" else "pm"
  }

  function ShowTime(c: Clock): string
    requires ValidClock(c)
  {
    Unpadded(Hour12Of(c.hour)) + ([':'] + (Pad2(c.minute) + MeridiemOf(c.hour)))
  }

  function ShowDateTime(d: Date, c: Clock): string
    requires ValidDate(d) && ValidClock(c)
  {
    Unpadded(Hour12Of(c.hour)) + ([':'] + (Pad2(c.minute) + (MeridiemOf(c.hour) + ([' '] +
      (Pad4(d.year) + (['-'] + (Pad2(d.month) + (['-'] + Pad2(d.day)))))))))
  }

  function ShowSeconds(c: Clock): string
    requires ValidClock(c)
  {
    Pad2(Hour12Of(c.hour)) + ([':'] + (Pad2(c.minute) + ([':'] + (Pad2(c.second) + ([' '] + MeridiemOf(c.hour))))))
  }

  // ---------------------------------------------------------------------
  // Lemmas

  /** The 12-hour reading and the 24-hour hour are in one-to-one correspondence. */
  lemma To24IsBijective(h12: nat, pm: bool, hour: nat)
    requires 1 <= h12 <= 12
    requires hour < 24
    ensures To24(h12, pm) < 24
    ensures Hour12Of(To24(h12, pm)) == h12 && (To24(h12, pm) >= 12) == pm
    ensures To24(Hour12Of(hour), hour >= 12) == hour
  {
  }

  lemma {:induction false} DigitRunOfDigits(ds: string, rest: string)
    requires AllDigits(ds)
    requires rest == [] || !IsDigit(rest[0])
    ensures DigitRun(ds + rest) == |ds|
  {
    if ds != [] {
      assert (ds + rest)[1..] == ds[1..] + rest;
      DigitRunOfDigits(ds[1..], rest);
    } else {
      assert ds + rest == rest;
    }
  }

  lemma NumberOfDigits(ds: string, rest: string, minLen: nat, maxLen: nat, lo: nat, hi: nat)
    requires AllDigits(ds) && minLen <= |ds| <= maxLen && lo <= Decimal(ds) <= hi
    requires rest == [] || !IsDigit(rest[0])
    ensures Number(ds + rest, minLen, maxLen, lo, hi) == Some((Decimal(ds), rest))
  {
    DigitRunOfDigits(ds, rest);
    assert (ds + rest)[..|ds|] == ds;
    assert (ds + rest)[|ds|..] == rest;
  }

  lemma Pad2Value(n: nat)
    requires n < 100
    ensures AllDigits(Pad2(n)) && Decimal(Pad2(n)) == n
  {
    var s := Pad2(n);
    assert s[..1] == [DigitChar(n / 10)];
    assert s[..1][..0] == [];
    assert Decimal(s[..1]) == n / 10;
    assert Decimal(s) == 10 * (n / 10) + n % 10;
  }

  lemma UnpaddedValue(n: nat)
    requires n < 100
    ensures AllDigits(Unpadded(n)) && Decimal(Unpadded(n)) == n && 1 <= |Unpadded(n)| <= 2
  {
    if n < 10 {
      assert Unpadded(n)[..0] == [];
    } else {
      Pad2Value(n);
    }
  }

  lemma Pad4Value(n: nat)
    requires n < 10000
    ensures AllDigits(Pad4(n)) && Decimal(Pad4(n)) == n
  {
    var s := Pad4(n);
    DigitSteps(n);
    assert s[..3][..2] == s[..2];
    assert s[..2][..1] == s[..1];
    assert s[..1][..0] == [];
    assert Decimal(s[..1]) == n / 1000;
    assert Decimal(s[..2]) == n / 100;
    assert Decimal(s[..3]) == n / 10;
  }

  /** Dropping one decimal digit at a time. */
  lemma DigitSteps(n: nat)
    ensures n / 100 == 10 * (n / 1000) + n / 100 % 10
    ensures n / 10 == 10 * (n / 100) + n / 10 % 10
    ensures n == 10 * (n / 10) + n % 10
  {
  }

  lemma MeridiemOfParses(hour: nat, rest: string)
    ensures Meridiem(MeridiemOf(hour) + rest) == Some((hour >= 12, rest))
  {
    assert (MeridiemOf(hour) + rest)[2..] == rest;
  }

  lemma LiteralParses(c: char, rest: string)
    ensures Literal(c, [c] + rest) == Some(rest)
  {
    assert ([c] + rest)[1..] == rest;
  }

  lemma OneSpaceParses(rest: string)
    requires rest == [] || !IsSpace(rest[0])
    ensures Spaces([' '] + rest) == Some(rest)
  {
    assert ([' '] + rest)[1..] == rest;
    assert SpaceRun(rest) == 0;
    assert SpaceRun([' '] + rest) == 1;
  }

  /** Parsing the short leave-time form gives back the clock it was rendered from. */
  lemma ParseTimeFormRoundTrip(c: Clock)
    requires ValidClock(c) && c.second == 0
    ensures ParseTimeForm(ShowTime(c)) == Some(c)
  {
    var u, mm, ap := Unpadded(Hour12Of(c.hour)), Pad2(c.minute), MeridiemOf(c.hour);
    UnpaddedValue(Hour12Of(c.hour));
    Pad2Value(c.minute);
    NumberOfDigits(u, [':'] + (mm + ap), 1, 2, 1, 12);
    LiteralParses(':', mm + ap);
    NumberOfDigits(mm, ap, 1, 2, 0, 59);
    MeridiemOfParses(c.hour, []);
    assert ap + [] == ap;
    To24IsBijective(Hour12Of(c.hour), c.hour >= 12, c.hour);
  }

  /**
    No string is in both leave-time forms: the short form ends at the
    meridiem, where the full form needs a blank.
  */
  lemma TimeFormIsNotDateForm(s: string)
    ensures ParseTimeForm(s).Some? ==> ParseDateForm(s).None?
  {
  }

  /** Parsing the full leave-time form gives back the date and clock it was rendered from. */
  lemma ParseDateFormRoundTrip(d: Date, c: Clock)
    requires ValidDate(d) && ValidClock(c) && c.second == 0
    ensures ParseDateForm(ShowDateTime(d, c)) == Some((d, c))
  {
    var dateText := Pad4(d.year) + (['-'] + (Pad2(d.month) + (['-'] + Pad2(d.day))));
    var afterAp := [' '] + dateText;
    ClockHeadParses(c, afterAp);
    DatePartParses(d);
    OneSpaceParses(dateText);
    To24IsBijective(Hour12Of(c.hour), c.hour >= 12, c.hour);
  }

  /** The "%I:%M%p" head of a rendering, followed by a blank. */
  lemma ClockHeadParses(c: Clock, afterAp: string)
    requires ValidClock(c) && afterAp != [] && afterAp[0] == ' '
    ensures var u, mm, ap := Unpadded(Hour12Of(c.hour)), Pad2(c.minute), MeridiemOf(c.hour);
      && Hour12(u + ([':'] + (mm + (ap + afterAp)))) == Some((Hour12Of(c.hour), [':'] + (mm + (ap + afterAp))))
      && Literal(':', [':'] + (mm + (ap + afterAp))) == Some(mm + (ap + afterAp))
      && Minute(mm + (ap + afterAp)) == Some((c.minute, ap + afterAp))
      && Meridiem(ap + afterAp) == Some((c.hour >= 12, afterAp))
  {
    var u, mm, ap := Unpadded(Hour12Of(c.hour)), Pad2(c.minute), MeridiemOf(c.hour);
    UnpaddedValue(Hour12Of(c.hour));
    Pad2Value(c.minute);
    NumberOfDigits(u, [':'] + (mm + (ap + afterAp)), 1, 2, 1, 12);
    LiteralParses(':', mm + (ap + afterAp));
    NumberOfDigits(mm, ap + afterAp, 1, 2, 0, 59);
    MeridiemOfParses(c.hour, afterAp);
  }

  /** The "%Y-%m-%d" tail of a rendering. */
  lemma DatePartParses(d: Date)
    requires ValidDate(d)
    ensures var yy, mo, dd := Pad4(d.year), Pad2(d.month), Pad2(d.day);
      && Year(yy + (['-'] + (mo + (['-'] + dd)))) == Some((d.year, ['-'] + (mo + (['-'] + dd))))
      && Literal('-', ['-'] + (mo + (['-'] + dd))) == Some(mo + (['-'] + dd))
      && Month(mo + (['-'] + dd)) == Some((d.month, ['-'] + dd))
      && Literal('-', ['-'] + dd) == Some(dd)
      && DayOfMonth(dd) == Some(d.day)
      && (yy + (['-'] + (mo + (['-'] + dd))))[0] == yy[0] && IsDigit(yy[0])
  {
    var yy, mo, dd := Pad4(d.year), Pad2(d.month), Pad2(d.day);
    Pad4Value(d.year);
    Pad2Value(d.month);
    Pad2Value(d.day);
    NumberOfDigits(yy, ['-'] + (mo + (['-'] + dd)), 4, 4, 1, 9999);
    LiteralParses('-', mo + (['-'] + dd));
    NumberOfDigits(mo, ['-'] + dd, 1, 2, 1, 12);
    LiteralParses('-', dd);
  }

  /** Parsing the last-update form gives back the clock it was rendered from. */
  lemma ParseSecondsFormRoundTrip(c: Clock)
    requires ValidClock(c)
    ensures ParseSecondsForm(ShowSeconds(c)) == Some(c)
  {
    var tail1 := [':'] + (Pad2(c.second) + ([' '] + MeridiemOf(c.hour)));
    PaddedHeadParses(c, tail1);
    SecondsTailParses(c);
    To24IsBijective(Hour12Of(c.hour), c.hour >= 12, c.hour);
  }

  /** The "%I:%M" head of a last-update rendering, followed by a colon. */
  lemma PaddedHeadParses(c: Clock, tail1: string)
    requires ValidClock(c) && tail1 != [] && tail1[0] == ':'
    ensures var hh, mm := Pad2(Hour12Of(c.hour)), Pad2(c.minute);
      && Hour12(hh + ([':'] + (mm + tail1))) == Some((Hour12Of(c.hour), [':'] + (mm + tail1)))
      && Literal(':', [':'] + (mm + tail1)) == Some(mm + tail1)
      && Minute(mm + tail1) == Some((c.minute, tail1))
  {
    var hh, mm := Pad2(Hour12Of(c.hour)), Pad2(c.minute);
    Pad2Value(Hour12Of(c.hour));
    Pad2Value(c.minute);
    NumberOfDigits(hh, [':'] + (mm + tail1), 1, 2, 1, 12);
    LiteralParses(':', mm + tail1);
    NumberOfDigits(mm, tail1, 1, 2, 0, 59);
  }

  /** The ":%S %p" tail of a last-update rendering. */
  lemma SecondsTailParses(c: Clock)
    requires ValidClock(c)
    ensures var ss, ap := Pad2(c.second), MeridiemOf(c.hour);
      && Literal(':', [':'] + (ss + ([' '] + ap))) == Some(ss + ([' '] + ap))
      && Second(ss + ([' '] + ap)) == Some((c.second, [' '] + ap))
      && Spaces([' '] + ap) == Some(ap)
      && Meridiem(ap) == Some((c.hour >= 12, []))
  {
    var ss, ap := Pad2(c.second), MeridiemOf(c.hour);
    Pad2Value(c.second);
    LiteralParses(':', ss + ([' '] + ap));
    NumberOfDigits(ss, [' '] + ap, 1, 2, 0, 59);
    OneSpaceParses(ap);
    MeridiemOfParses(c.hour, []);
    assert ap + [] == ap;
  }

  // ---------------------------------------------------------------------
  // The renderings of the test suite's strings.

  lemma RenderedDateTime()
    ensures "9:59pm 2018-02-13" == ShowDateTime(Date(2018, 2, 13), Clock(21, 59, 0))
  {
    assert Unpadded(Hour12Of(21)) == "9";
    assert Pad2(59) == "59";
    assert MeridiemOf(21) == "pm";
    assert Pad4(2018) == "2018";
    assert Pad2(2) == "02";
    assert Pad2(13) == "13";
  }

  lemma RenderedTimes()
    ensures "12:09am" == ShowTime(Clock(0, 9, 0))
    ensures "10:00pm" == ShowTime(Clock(22, 0, 0))
  {
    assert Unpadded(Hour12Of(0)) == "12";
    assert Pad2(9) == "09";
    assert Unpadded(Hour12Of(22)) == "10";
    assert Pad2(0) == "00";
  }

  lemma RenderedSeconds()
    ensures "08:53:10 pm" == ShowSeconds(Clock(20, 53, 10))
    ensures "01:00:00 am" == ShowSeconds(Clock(1, 0, 0))
  {
    assert Pad2(Hour12Of(20)) == "08";
    assert Pad2(53) == "53";
    assert Pad2(10) == "10";
    assert Pad2(Hour12Of(1)) == "01";
    assert Pad2(0) == "00";
  }

  lemma SecondsFormFixtures()
    ensures ParseSecondsForm("08:53:10 pm") == Some(Clock(20, 53, 10))
    ensures ParseSecondsForm("01:00:00 am") == Some(Clock(1, 0, 0))
  {
    RenderedSeconds();
    ParseSecondsFormRoundTrip(Clock(20, 53, 10));
    ParseSecondsFormRoundTrip(Clock(1, 0, 0));
  }
}
