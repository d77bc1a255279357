/** The compact duration printer of the result lines, and a reader that undoes it. */
module Durations {
  import opened Prelude

  // ----- decimal digits

  predicate IsDigit(c: char) { '0' <= c <= '9' }

  function DigitChar(d: nat): (c: char)
    requires d < 10
    ensures IsDigit(c) && (c == '0' <==> d == 0)
  {
    '0' + d as char
  }

  function DigitValue(c: char): nat
    requires IsDigit(c)
  {
    (c - '0') as nat
  }

  function Digits(n: nat): (s: string)
    ensures s != [] && forall i :: 0 <= i < |s| ==> IsDigit(s[i])
    ensures |s| == 1 ==> (s[0] == '0' <==> n == 0)
  {
    if n < 10 then [DigitChar(n)] else Digits(n / 10) + [DigitChar(n % 10)]
  }

  // ----- printing

  /** Rounded to a multiple of unit, halves up. */
  function RoundTo(d: nat, unit: nat): nat
    requires 0 < unit
  {
    var r := d % unit;
    if r + r < unit then d - r else d + (unit - r)
  }

  /** Milliseconds below a second, centiseconds below a minute, whole seconds above. */
  function Rounded(d: int): nat {
    if d < 0 then 0
    else if d < SECOND then RoundTo(d, MILLISECOND)
    else if d < MINUTE then RoundTo(d, 10_000_000)
    else RoundTo(d, SECOND)
  }

  /** The precision a duration is printed with. */
  function Precision(d: nat): nat {
    if d < SECOND then MILLISECOND else if d < MINUTE then 10 * MILLISECOND else SECOND
  }

  /** The milliseconds of a second as a decimal fraction without trailing zeros. */
  function Fraction(ms: nat): string
    requires ms < 1000
  {
    var a, b, c := DigitChar(ms / 100), DigitChar(ms / 10 % 10), DigitChar(ms % 10);
    if ms == 0 then ""
    else if ms % 100 == 0 then ['.', a]
    else if ms % 10 == 0 then ['.', a, b]
    else ['.', a, b, c]
  }

  /** Go's own notation for a whole number of milliseconds. */
  function GoString(ms: nat): string {
    if ms == 0 then "0s"
    else if ms < 1000 then Digits(ms) + "ms"
    else
      var seconds := ms / 1000;
      var minutes := seconds / 60;
      var hours := minutes / 60;
      (if hours > 0 then Digits(hours) + "h" else "")
      + (if minutes > 0 then Digits(minutes % 60) + "m" else "")
      + Digits(seconds % 60) + Fraction(ms % 1000) + "s"
  }

  predicate HasSuffix(s: string, suffix: string) {
    |suffix| <= |s| && s[|s| - |suffix|..] == suffix
  }

  function TrimSuffix(s: string, suffix: string): string {
    if HasSuffix(s, suffix) then s[..|s| - |suffix|] else s
  }

  /** Trailing zero units dropped. */
  function Trimmed(s: string): string {
    var s' := if HasSuffix(s, "m0s") || HasSuffix(s, "h0s") then TrimSuffix(s, "0s") else s;
    if HasSuffix(s', "h0m") then TrimSuffix(s', "0m") else s'
  }

  function FormatDuration(d: int): string {
    Trimmed(GoString(Rounded(d) / MILLISECOND))
  }

  // ----- reading

  /** The number s starts with, after acc, and what follows it. */
  function ReadNumber(s: string, acc: nat): (r: (nat, string))
    ensures |r.1| <= |s|
  {
    if s != [] && IsDigit(s[0]) then ReadNumber(s[1..], acc * 10 + DigitValue(s[0])) else (acc, s)
  }

  /** Up to three decimal places of a second. */
  function Places(value: nat, count: nat): Option<nat> {
    if count == 1 then Some(value * (100 * MILLISECOND))
    else if count == 2 then Some(value * (10 * MILLISECOND))
    else if count == 3 then Some(value * MILLISECOND)
    else None
  }

  /** A sum of numbers with units h, m, s and ms; seconds may have decimal places. */
  function ReadDuration(s: string): Option<nat>
    decreases |s|
  {
    if s == [] then Some(0)
    else if !IsDigit(s[0]) then None
    else
      var (n, rest) := ReadNumber(s[1..], DigitValue(s[0]));
      ReadUnit(n, rest)
  }

  /** The number n was read; rest starts with its decimal places or its unit. */
  function ReadUnit(n: nat, rest: string): Option<nat>
    decreases |rest|
  {
    if rest == [] then None
    else if rest[0] == '.' then
      var (value, rest') := ReadNumber(rest[1..], 0);
      var places := Places(value, |rest| - 1 - |rest'|);
      if places.Some? && rest' != [] && rest'[0] == 's' then
        Plus(n * SECOND + places.value, ReadDuration(rest'[1..]))
      else None
    else if rest[0] == 'h' then Plus(n * HOUR, ReadDuration(rest[1..]))
    else if rest[0] == 's' then Plus(n * SECOND, ReadDuration(rest[1..]))
    else if |rest| > 1 && rest[0] == 'm' && rest[1] == 's' then Plus(n * MILLISECOND, ReadDuration(rest[2..]))
    else if rest[0] == 'm' then Plus(n * MINUTE, ReadDuration(rest[1..]))
    else None
  }

  function Plus(n: nat, r: Option<nat>): Option<nat> {
    if r.Some? then Some(n + r.value) else None
  }

  // ----- reading digits back

  lemma {:induction false} DigitsReadBack(n: nat, rest: string)
    ensures ReadNumber(Digits(n) + rest, 0) == ReadNumber(rest, n)
  {
    if n < 10 {
      assert (Digits(n) + rest)[1..] == rest;
    } else {
      var last := [DigitChar(n % 10)];
      assert Digits(n) + rest == Digits(n / 10) + (last + rest);
      DigitsReadBack(n / 10, last + rest);
      assert (last + rest)[1..] == rest;
    }
  }

  /** One number is read off the front of what is printed. */
  lemma NumberReadBack(n: nat, rest: string)
    requires rest != [] && !IsDigit(rest[0])
    ensures ReadDuration(Digits(n) + rest) == ReadUnit(n, rest)
  {
    var s := Digits(n) + rest;
    assert s[0] == Digits(n)[0];
    DigitsReadBack(n, rest);
    assert ReadNumber(s, 0) == ReadNumber(s[1..], DigitValue(s[0])) == (n, rest);
  }

  lemma HoursReadBack(n: nat, rest: string)
    ensures ReadDuration(Digits(n) + "h" + rest) == Plus(n * HOUR, ReadDuration(rest))
  {
    var tail := "h" + rest;
    assert Digits(n) + "h" + rest == Digits(n) + tail && tail[1..] == rest;
    NumberReadBack(n, tail);
  }

  lemma MinutesReadBack(n: nat, rest: string)
    requires rest != [] ==> rest[0] != 's'
    ensures ReadDuration(Digits(n) + "m" + rest) == Plus(n * MINUTE, ReadDuration(rest))
  {
    var tail := "m" + rest;
    assert Digits(n) + "m" + rest == Digits(n) + tail && tail[1..] == rest;
    assert |tail| > 1 ==> tail[1] == rest[0];
    NumberReadBack(n, tail);
  }

  lemma MillisecondsReadBack(n: nat)
    ensures ReadDuration(Digits(n) + "ms") == Some(n * MILLISECOND)
  {
    NumberReadBack(n, "ms");
    assert "ms"[2..] == "";
  }

  lemma DigitReadBack(d: nat, rest: string, acc: nat)
    requires d < 10
    ensures ReadNumber([DigitChar(d)] + rest, acc) == ReadNumber(rest, acc * 10 + d)
  {
    assert ([DigitChar(d)] + rest)[1..] == rest;
  }

  lemma FractionReadBack(ms: nat)
    requires 0 < ms < 1000
    ensures var (value, rest) := ReadNumber((Fraction(ms) + "s")[1..], 0);
            rest == "s" && Places(value, |Fraction(ms)| - 1) == Some(ms * MILLISECOND)
  {
    var a, b, c := ms / 100, ms / 10 % 10, ms % 10;
    assert ms == a * 100 + b * 10 + c;
    var s := (Fraction(ms) + "s")[1..];
    var third := if c == 0 then "s" else [DigitChar(c)] + "s";
    var second := if b == 0 && c == 0 then "s" else [DigitChar(b)] + third;
    assert s == [DigitChar(a)] + second;
    DigitReadBack(a, second, 0);
    if b != 0 || c != 0 {
      DigitReadBack(b, third, a);
      if c != 0 {
        DigitReadBack(c, "s", a * 10 + b);
      }
    }
  }

  lemma SecondsReadBack(n: nat, ms: nat)
    requires ms < 1000
    ensures ReadDuration(Digits(n) + Fraction(ms) + "s") == Some(n * SECOND + ms * MILLISECOND)
  {
    var rest := Fraction(ms) + "s";
    assert Digits(n) + Fraction(ms) + "s" == Digits(n) + rest;
    NumberReadBack(n, rest);
    assert "s"[1..] == "";
    if ms == 0 {
      assert rest == "s";
    } else {
      FractionReadBack(ms);
    }
  }

  // ----- trimming

  /** Only a text ending in one of three ways is trimmed at all. */
  lemma NotTrimmed(s: string)
    requires |s| >= 3 ==> s[|s| - 3] != 'm' && s[|s| - 3] != 'h'
    ensures Trimmed(s) == s
  {
    if |s| >= 3 {
      assert s[|s| - 3..][0] == s[|s| - 3];
    }
  }

  /** Hours, minutes and seconds with trailing zero units left out. */
  function Compact(hours: nat, minutes: nat, seconds: nat): string {
    if hours > 0 && minutes == 0 && seconds == 0 then Digits(hours) + "h"
    else Whole(hours, minutes) + if seconds == 0 then "" else Digits(seconds) + "s"
  }

  function Whole(hours: nat, minutes: nat): string {
    (if hours > 0 then Digits(hours) + "h" else "") + Digits(minutes) + "m"
  }

  lemma LastThree(s: string, suffix: string)
    requires |s| >= 3 && |suffix| == 3
    ensures HasSuffix(s, suffix) <==>
            s[|s| - 3] == suffix[0] && s[|s| - 2] == suffix[1] && s[|s| - 1] == suffix[2]
  {
    assert s[|s| - 3..] == [s[|s| - 3], s[|s| - 2], s[|s| - 1]];
    assert suffix == [suffix[0], suffix[1], suffix[2]];
  }

  /** The last two characters a number under 60 leaves before its unit. */
  lemma TwoBeforeUnit(before: char, n: nat, s: string, unit: char)
    requires n < 60 && |s| >= |Digits(n)| + 2
    requires s[|s| - |Digits(n)| - 2..] == [before] + Digits(n) + [unit]
    ensures |Digits(n)| <= 2 && s[|s| - 1] == unit
    ensures if n < 10 then s[|s| - 3] == before && s[|s| - 2] == DigitChar(n) else IsDigit(s[|s| - 3])
  {
    var tail := s[|s| - |Digits(n)| - 2..];
    if n < 10 {
      assert tail == [before, DigitChar(n), unit];
    } else {
      assert Digits(n) == [DigitChar(n / 10), DigitChar(n % 10)];
      assert tail == [before, DigitChar(n / 10), DigitChar(n % 10), unit];
    }
    assert forall k :: 0 <= k < |tail| ==> tail[k] == s[|s| - |tail| + k];
  }

  lemma SecondsTrimmed(prefix: string, seconds: nat)
    requires prefix != [] && prefix[|prefix| - 1] == 'm' && seconds < 60
    ensures var s := prefix + Digits(seconds) + "s";
            var s' := if HasSuffix(s, "m0s") || HasSuffix(s, "h0s") then TrimSuffix(s, "0s") else s;
            s' == if seconds == 0 then prefix else s
  {
    var s := prefix + Digits(seconds) + "s";
    assert s[|s| - |Digits(seconds)| - 2..] == ['m'] + Digits(seconds) + ['s'];
    TwoBeforeUnit('m', seconds, s, 's');
    LastThree(s, "m0s");
    LastThree(s, "h0s");
    if seconds == 0 {
      assert s[|s| - 2..] == "0s" && s[..|s| - 2] == prefix;
    }
  }

  lemma MinutesTrimmed(hours: nat, minutes: nat)
    requires minutes < 60 && 0 < hours
    ensures var s := Whole(hours, minutes);
            (if HasSuffix(s, "h0m") then TrimSuffix(s, "0m") else s) ==
            if minutes == 0 then Digits(hours) + "h" else s
  {
    var s := Whole(hours, minutes);
    assert s[|s| - |Digits(minutes)| - 2..] == ['h'] + Digits(minutes) + ['m'];
    TwoBeforeUnit('h', minutes, s, 'm');
    LastThree(s, "h0m");
    if minutes == 0 {
      assert s[|s| - 2..] == "0m" && s[..|s| - 2] == Digits(hours) + "h";
    }
  }

  lemma NoHourToTrim(minutes: nat)
    ensures !HasSuffix(Whole(0, minutes), "h0m")
  {
    var s := Whole(0, minutes);
    if |s| >= 3 {
      LastThree(s, "h0m");
      assert s[|s| - 3] == Digits(minutes)[|s| - 3];
    }
  }

  lemma TrimmedIsCompact(hours: nat, minutes: nat, seconds: nat)
    requires minutes < 60 && seconds < 60
    ensures Trimmed(Whole(hours, minutes) + Digits(seconds) + "s") == Compact(hours, minutes, seconds)
  {
    var whole := Whole(hours, minutes);
    SecondsTrimmed(whole, seconds);
    if seconds == 0 {
      if hours > 0 {
        MinutesTrimmed(hours, minutes);
      } else {
        NoHourToTrim(minutes);
      }
      assert whole + "" == whole;
    } else {
      var s := whole + Digits(seconds) + "s";
      LastThree(s, "h0m");
      assert whole + (Digits(seconds) + "s") == s;
    }
  }

  // ----- reading back what is printed

  lemma SecondsTailReadBack(seconds: nat)
    ensures ReadDuration(if seconds == 0 then "" else Digits(seconds) + "s") == Some(seconds * SECOND)
  {
    if seconds > 0 {
      SecondsReadBack(seconds, 0);
      assert Digits(seconds) + Fraction(0) + "s" == Digits(seconds) + "s";
    }
  }

  lemma MinutesTailReadBack(minutes: nat, seconds: nat)
    ensures ReadDuration(Tail(minutes, seconds)) == Some(minutes * MINUTE + seconds * SECOND)
  {
    var tail := if seconds == 0 then "" else Digits(seconds) + "s";
    SecondsTailReadBack(seconds);
    MinutesReadBack(minutes, tail);
    assert Whole(0, minutes) == Digits(minutes) + "m";
  }

  lemma HoursOnlyReadBack(hours: nat)
    ensures ReadDuration(Digits(hours) + "h") == Some(hours * HOUR)
  {
    HoursReadBack(hours, "");
    assert Digits(hours) + "h" + "" == Digits(hours) + "h";
  }

  function Tail(minutes: nat, seconds: nat): string {
    Whole(0, minutes) + if seconds == 0 then "" else Digits(seconds) + "s"
  }

  lemma CompactIs(hours: nat, minutes: nat, seconds: nat)
    ensures Compact(hours, minutes, seconds) ==
            if hours == 0 then Tail(minutes, seconds)
            else if minutes == 0 && seconds == 0 then Digits(hours) + "h"
            else Digits(hours) + "h" + Tail(minutes, seconds)
  {
  }

  lemma CompactReadBack(hours: nat, minutes: nat, seconds: nat)
    ensures ReadDuration(Compact(hours, minutes, seconds)) == Some(hours * HOUR + (minutes * MINUTE + seconds * SECOND))
  {
    CompactIs(hours, minutes, seconds);
    if hours > 0 && minutes == 0 && seconds == 0 {
      HoursOnlyReadBack(hours);
    } else {
      MinutesTailReadBack(minutes, seconds);
      if hours > 0 {
        HoursReadBack(hours, Tail(minutes, seconds));
      }
    }
  }

  lemma MultipleOfMillisecond(k: nat)
    ensures (k * MILLISECOND) % MILLISECOND == 0
  {
  }

  lemma MultipleOfCentisecond(k: nat)
    ensures (k * 10_000_000) % 10_000_000 == 0 && (k * 10_000_000) % MILLISECOND == 0
  {
    assert k * 10_000_000 == (10 * k) * MILLISECOND;
    MultipleOfMillisecond(10 * k);
  }

  lemma MultipleOfSecond(k: nat)
    ensures (k * SECOND) % SECOND == 0 && (k * SECOND) % MILLISECOND == 0
  {
    assert k * SECOND == (1000 * k) * MILLISECOND;
    MultipleOfMillisecond(1000 * k);
  }

  /**
   Rounding yields a multiple of the precision, at most half of it away, halves up: whole
   milliseconds always, whole seconds from a minute on.
   */
  lemma RoundedIsNearest(d: nat)
    ensures Rounded(d) % Precision(d) == 0
    ensures 2 * (Rounded(d) - d) <= Precision(d) && 2 * (d - Rounded(d)) < Precision(d)
    ensures Rounded(d) % MILLISECOND == 0
    ensures Rounded(d) >= MINUTE ==> Rounded(d) % SECOND == 0
  {
    if d < SECOND {
      MultipleOfMillisecond(d / MILLISECOND);
      MultipleOfMillisecond(d / MILLISECOND + 1);
    } else if d < MINUTE {
      MultipleOfCentisecond(d / 10_000_000);
      MultipleOfCentisecond(d / 10_000_000 + 1);
    } else {
      MultipleOfSecond(d / SECOND);
      MultipleOfSecond(d / SECOND + 1);
    }
  }

  lemma MinutesFromGo(ms: nat, hours: nat, minutes: nat, seconds: nat)
    requires ms >= 60_000 && ms == ((hours * 60 + minutes) * 60 + seconds) * 1000
    requires minutes < 60 && seconds < 60
    ensures GoString(ms) == Whole(hours, minutes) + Digits(seconds) + "s"
  {
    var s := ms / 1000;
    assert s == (hours * 60 + minutes) * 60 + seconds && ms % 1000 == 0;
    assert s / 60 == hours * 60 + minutes && s % 60 == seconds;
    assert s / 60 / 60 == hours && s / 60 % 60 == minutes;
    assert Fraction(0) == "";
    assert Digits(seconds) + "" == Digits(seconds);
  }

  lemma FormatMinutes(ms: nat, hours: nat, minutes: nat, seconds: nat)
    requires ms >= 60_000 && ms == ((hours * 60 + minutes) * 60 + seconds) * 1000
    requires minutes < 60 && seconds < 60
    ensures ReadDuration(Trimmed(GoString(ms))) == Some(ms * MILLISECOND)
  {
    MinutesFromGo(ms, hours, minutes, seconds);
    TrimmedReadBack(GoString(ms), hours, minutes, seconds);
  }

  lemma TrimmedReadBack(text: string, hours: nat, minutes: nat, seconds: nat)
    requires minutes < 60 && seconds < 60
    requires text == Whole(hours, minutes) + Digits(seconds) + "s"
    ensures ReadDuration(Trimmed(text)) == Some(((hours * 60 + minutes) * 60 + seconds) * 1000 * MILLISECOND)
  {
    TrimmedIsCompact(hours, minutes, seconds);
    CompactReadBack(hours, minutes, seconds);
  }

  lemma FormatSeconds(ms: nat)
    requires 1000 <= ms < 60_000
    ensures Trimmed(GoString(ms)) == Digits(ms / 1000) + Fraction(ms % 1000) + "s"
  {
    assert ms / 1000 % 60 == ms / 1000 && ms / 1000 / 60 == 0;
    assert GoString(ms) == Digits(ms / 1000) + Fraction(ms % 1000) + "s";
    NumberNotTrimmed(GoString(ms), ms / 1000, ms % 1000);
  }

  lemma NumberNotTrimmed(text: string, n: nat, ms: nat)
    requires ms < 1000 && text == Digits(n) + Fraction(ms) + "s"
    ensures Trimmed(text) == text
  {
    var number := Digits(n) + Fraction(ms);
    NumberChars(n, ms);
    if |text| >= 3 {
      assert text[|text| - 3] == number[|text| - 3];
    }
    NotTrimmed(text);
  }

  lemma NumberChars(n: nat, ms: nat)
    requires ms < 1000
    ensures var s := Digits(n) + Fraction(ms); forall i :: 0 <= i < |s| ==> IsDigit(s[i]) || s[i] == '.'
  {
  }

  lemma FormatMilliseconds(ms: nat)
    requires 0 < ms < 1000
    ensures Trimmed(GoString(ms)) == Digits(ms) + "ms"
  {
    var s := Digits(ms) + "ms";
    assert s[|s| - 3] == Digits(ms)[|s| - 3];
    NotTrimmed(s);
  }

  /**
   Reading the printed text back as a sum of units gives exactly the rounded
   duration, also where rounding crosses a second or a minute: leaving out
   zero units loses nothing.
   */
  lemma PrintedReadsBack(d: int)
    ensures ReadDuration(FormatDuration(d)) == Some(Rounded(d))
  {
    if d >= 0 {
      RoundedIsNearest(d);
    }
    GoStringReadBack(Rounded(d) / MILLISECOND);
  }

  lemma GoStringReadBack(ms: nat)
    requires ms >= 60_000 ==> ms % 1000 == 0
    ensures ReadDuration(Trimmed(GoString(ms))) == Some(ms * MILLISECOND)
  {
    if ms < 60_000 {
      BelowAMinuteReadBack(ms);
    } else {
      FormatMinutes(ms, ms / 3_600_000, ms / 60_000 % 60, ms / 1000 % 60);
    }
  }

  lemma BelowAMinuteReadBack(ms: nat)
    requires ms < 60_000
    ensures ReadDuration(Trimmed(GoString(ms))) == Some(ms * MILLISECOND)
  {
    if ms == 0 {
      ZeroReadBack();
    } else if ms < 1000 {
      FormatMilliseconds(ms);
      MillisecondsReadBack(ms);
    } else {
      FormatSeconds(ms);
      SecondsTextReadBack(Trimmed(GoString(ms)), ms / 1000, ms % 1000);
    }
  }

  lemma ZeroReadBack()
    ensures ReadDuration(Trimmed(GoString(0))) == Some(0)
  {
    NotTrimmed("0s");
    SecondsReadBack(0, 0);
    assert Digits(0) + Fraction(0) + "s" == "0s";
  }

  lemma SecondsTextReadBack(text: string, n: nat, ms: nat)
    requires ms < 1000 && text == Digits(n) + Fraction(ms) + "s"
    ensures ReadDuration(text) == Some((n * 1000 + ms) * MILLISECOND)
  {
    SecondsReadBack(n, ms);
  }

  /** The text is off by at most half the printed precision. */
  lemma PrintedIsClose(d: nat)
    ensures var r := ReadDuration(FormatDuration(d));
            && r.Some?
            && 2 * (r.value - d) <= Precision(d) && 2 * (d - r.value) <= Precision(d)
  {
    PrintedReadsBack(d);
    RoundedIsNearest(d);
  }

  /** Two durations print alike just when they round alike. */
  lemma PrintedAlike(a: int, b: int)
    ensures FormatDuration(a) == FormatDuration(b) <==> Rounded(a) == Rounded(b)
  {
    PrintedReadsBack(a);
    PrintedReadsBack(b);
  }

  // ----- what the text looks like

  /** A number as people write it: no zero in front of other digits. */
  lemma {:induction false} DigitsLead(n: nat)
    ensures |Digits(n)| > 1 ==> Digits(n)[0] != '0'
    ensures n > 0 ==> Digits(n)[0] != '0'
  {
    if n >= 10 {
      DigitsLead(n / 10);
      assert Digits(n)[0] == Digits(n / 10)[0];
    }
  }

  /** A decimal fraction of at most three places that does not end in a zero. */
  predicate IsFraction(s: string) {
    s == "" ||
    (2 <= |s| <= 4 && s[0] == '.' && s[|s| - 1] != '0' && forall i :: 1 <= i < |s| ==> IsDigit(s[i]))
  }

  /** A unit that is written out. */
  function Unit(n: nat, unit: string): string { Digits(n) + unit }

  /**
   The text: 0s, whole milliseconds below a second, seconds with a fraction that
   does not end in zeros below a minute, and from there hours, minutes and
   seconds, of which only zeros at the end and hours that are zero are left out.
   */
  lemma {:induction false} PrintedForm(d: int)
    ensures var ms := Rounded(d) / 1_000_000;
            var text := FormatDuration(d);
            && (ms == 0 ==> text == "0s")
            && (0 < ms < 1000 ==> text == Unit(ms, "ms"))
            && (1000 <= ms < 60_000 ==>
                  exists fraction :: IsFraction(fraction) && text == Digits(ms / 1000) + fraction + "s")
            && (ms >= 60_000 ==>
                  var hours, minutes, seconds := ms / 3_600_000, ms / 60_000 % 60, ms / 1000 % 60;
                  text == (if hours > 0 then Unit(hours, "h") else "")
                          + (if minutes > 0 || (hours > 0 && seconds > 0) then Unit(minutes, "m") else "")
                          + if seconds > 0 then Unit(seconds, "s") else "")
  {
    var ms := Rounded(d) / MILLISECOND;
    if d >= 0 {
      RoundedIsNearest(d);
    }
    if ms == 0 {
      NotTrimmed("0s");
    } else if ms < 1000 {
      FormatMilliseconds(ms);
    } else if ms < 60_000 {
      FormatSeconds(ms);
      FractionForm(ms % 1000);
    } else {
      LongForm(ms, ms / 3_600_000, ms / 60_000 % 60, ms / 1000 % 60);
    }
  }

  lemma FractionForm(ms: nat)
    requires ms < 1000
    ensures IsFraction(Fraction(ms))
  {
  }

  lemma {:induction false} LongForm(ms: nat, hours: nat, minutes: nat, seconds: nat)
    requires ms >= 60_000 && ms == ((hours * 60 + minutes) * 60 + seconds) * 1000
    requires minutes < 60 && seconds < 60
    ensures Trimmed(GoString(ms)) ==
            (if hours > 0 then Unit(hours, "h") else "")
            + (if minutes > 0 || (hours > 0 && seconds > 0) then Unit(minutes, "m") else "")
            + if seconds > 0 then Unit(seconds, "s") else ""
  {
    MinutesFromGo(ms, hours, minutes, seconds);
    TrimmedIsCompact(hours, minutes, seconds);
    var h := if hours > 0 then Unit(hours, "h") else "";
    assert h + "" == h;
    assert Whole(hours, minutes) == h + Unit(minutes, "m");
    assert Whole(hours, minutes) + "" == Whole(hours, minutes);
  }
}
