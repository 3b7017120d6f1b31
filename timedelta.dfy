/**
 * The rendering of a whole number of seconds by `str(datetime.timedelta(seconds = s))`,
 * which is how an event's cumulative time is displayed, together with a reader for
 * that rendering so that the rendering can be shown to lose nothing.
 *
 * A timedelta is normalised to `days` (floor of s / 86400, possibly negative) and a
 * remainder `0 <= rem < 86400`; the text is `"H:MM:SS"` for the remainder, preceded by
 * `"D day, "` or `"D days, "` when `days != 0` (singular exactly when |days| == 1).
 */
module Timedelta {
  import opened Wrappers

  const SecondsPerDay := 86400
  const SecondsPerHour := 3600
  const SecondsPerMinute := 60

  predicate IsDigit(c: char) { '0' <= c <= '9' }

  predicate AllDigits(s: string) { forall i :: 0 <= i < |s| ==> IsDigit(s[i]) }

  function DigitChar(d: nat): (c: char)
    requires d < 10
    ensures IsDigit(c) && c as int - '0' as int == d
  {
    (d + '0' as int) as char
  }

  function DigitValue(c: char): nat
    requires IsDigit(c)
  {
    c as int - '0' as int
  }

  /** Python's `"%d" % n` for n >= 0: decimal digits, no leading zeros. */
  function NatToString(n: nat): (s: string)
    ensures |s| >= 1 && AllDigits(s)
    ensures n >= 10 ==> s[0] != '0'
  {
    if n < 10 then [DigitChar(n)] else NatToString(n / 10) + [DigitChar(n % 10)]
  }

  /** Python's `"%d" % i` for any integer. */
  function IntToString(i: int): string {
    if i < 0 then "-" + NatToString(-i) else NatToString(i)
  }

  /** The number a string of decimal digits denotes. */
  function ValueOf(s: string): nat
    requires AllDigits(s)
  {
    if s == [] then 0 else ValueOf(s[..|s| - 1]) * 10 + DigitValue(s[|s| - 1])
  }

  /** Python's `"%02d" % n` for 0 <= n < 100: two digits, the first one zero below ten. */
  function Pad2(n: nat): string
    requires n < 100
  {
    [DigitChar(n / 10), DigitChar(n % 10)]
  }

  /** `"%02d"` agrees with `"%d"` from ten on, pads with one zero below ten, and reads back as n. */
  lemma Pad2Value(n: nat)
    requires n < 100
    ensures |Pad2(n)| == 2 && AllDigits(Pad2(n)) && ValueOf(Pad2(n)) == n
    ensures Pad2(n) == if n < 10 then "0" + NatToString(n) else NatToString(n)
  {
    var s := Pad2(n);
    assert s[..1] == [DigitChar(n / 10)] && s[..1][..0] == [];
    assert ValueOf(s[..1]) == n / 10;
    assert ValueOf(s) == ValueOf(s[..1]) * 10 + n % 10;
    assert n / 10 * 10 + n % 10 == n;
    assert DigitChar(0) == '0';
  }

  /** The `"D day, "` / `"D days, "` part, empty when the timedelta has no whole days. */
  function DayPrefix(days: int): string {
    if days == 0 then ""
    else IntToString(days) + " day" + (if days == 1 || days == -1 then "" else "s") + ", "
  }

  /** `"%d:%02d:%02d" % (hh, mm, ss)` for a remainder within one day. */
  function Clock(rem: nat): string
    requires rem < SecondsPerDay
  {
    NatToString(rem / SecondsPerHour) + ":" + Pad2(rem / SecondsPerMinute % 60) + ":" + Pad2(rem % SecondsPerMinute)
  }

  /** `str(timedelta(seconds = seconds))`; Dafny's `/` and `%` floor here, as timedelta's normalisation does. */
  function Str(seconds: int): string {
    DayPrefix(seconds / SecondsPerDay) + Clock(seconds % SecondsPerDay)
  }

  // ---------------------------------------------------------------------------
  // Reading the rendering back

  function ParseNat(s: string): Option<int> {
    if s != [] && AllDigits(s) then Some(ValueOf(s)) else None
  }

  function ParseInt(s: string): Option<int> {
    if |s| > 0 && s[0] == '-' then
      match ParseNat(s[1..])
      case Some(v) => Some(-v)
      case None => None
    else ParseNat(s)
  }

  /** Length of the longest suffix of s made of digits. */
  function DigitRun(s: string): (k: nat)
    ensures k <= |s|
    ensures forall i :: |s| - k <= i < |s| ==> IsDigit(s[i])
    ensures k < |s| ==> !IsDigit(s[|s| - k - 1])
  {
    if s == [] || !IsDigit(s[|s| - 1]) then 0 else DigitRun(s[..|s| - 1]) + 1
  }

  /** Reads a day prefix: the empty string, or `"D day, "` / `"D days, "` with D != 0 and the plural agreeing with D. */
  function ParseDayPrefix(p: string): Option<int> {
    if p == [] then Some(0)
    else if |p| < 2 || p[|p| - 2..] != ", " then None
    else
      var q := p[..|p| - 2];
      var plural := |q| > 0 && q[|q| - 1] == 's';
      var r := if plural then q[..|q| - 1] else q;
      if |r| < 4 || r[|r| - 4..] != " day" then None
      else
        match ParseInt(r[..|r| - 4])
        case None => None
        case Some(d) => if d != 0 && plural == (d != 1 && d != -1) then Some(d) else None
  }

  /** Reads `"[D day[s], ]H:MM:SS"` back to a number of seconds. */
  function Parse(t: string): Option<int> {
    if |t| < 7 || t[|t| - 6] != ':' || t[|t| - 3] != ':' then None
    else
      var head := t[..|t| - 6];
      var k := DigitRun(head);
      Combine(ParseDayPrefix(head[..|head| - k]), ParseNat(head[|head| - k..]), ParseNat(t[|t| - 5..|t| - 3]), ParseNat(t[|t| - 2..]))
  }

  /** The number of seconds denoted by the fields read, when each was read and lies in its range. */
  function Combine(days: Option<int>, hh: Option<int>, mm: Option<int>, ss: Option<int>): Option<int> {
    if days.Some? && hh.Some? && mm.Some? && ss.Some? && hh.value < 24 && mm.value < 60 && ss.value < 60
    then Some(days.value * SecondsPerDay + hh.value * SecondsPerHour + mm.value * SecondsPerMinute + ss.value)
    else None
  }

  // ---------------------------------------------------------------------------
  // Lemmas

  lemma {:induction false} NatToStringValue(n: nat)
    ensures ValueOf(NatToString(n)) == n
  {
    if n >= 10 {
      NatToStringValue(n / 10);
      var s := NatToString(n);
      assert s[..|s| - 1] == NatToString(n / 10);
    }
  }

  lemma ParseIntOf(i: int)
    ensures ParseInt(IntToString(i)) == Some(i)
  {
    var s := IntToString(i);
    if i < 0 {
      var digits := NatToString(-i);
      assert s == "-" + digits;
      assert s[1..] == digits;
      NatToStringValue(-i);
      assert ParseNat(digits) == Some(-i);
    } else {
      assert IsDigit(s[0]);
      NatToStringValue(i);
      assert ParseNat(s) == Some(i);
    }
  }

  lemma {:induction false} DigitRunAfter(p: string, q: string)
    requires AllDigits(q)
    requires p == [] || !IsDigit(p[|p| - 1])
    ensures DigitRun(p + q) == |q|
  {
    if q == [] {
      assert p + q == p;
    } else {
      var q' := q[..|q| - 1];
      DigitRunAfter(p, q');
      assert (p + q)[..|p + q| - 1] == p + q';
    }
  }

  lemma ParseDayPrefixOf(days: int)
    ensures ParseDayPrefix(DayPrefix(days)) == Some(days)
  {
    if days != 0 {
      var i := IntToString(days);
      var pl := if days == 1 || days == -1 then "" else "s";
      var p := DayPrefix(days);
      assert p == i + " day" + pl + ", ";
      var q := p[..|p| - 2];
      assert q == i + " day" + pl;
      var r := if pl == "s" then q[..|q| - 1] else q;
      assert r == i + " day";
      assert r[..|r| - 4] == i;
      ParseIntOf(days);
    }
  }

  lemma ClockArith(rem: nat)
    requires rem < SecondsPerDay
    ensures rem / SecondsPerHour < 24 && rem / SecondsPerMinute % 60 < 60
    ensures rem / SecondsPerHour * SecondsPerHour + rem / SecondsPerMinute % 60 * SecondsPerMinute + rem % SecondsPerMinute == rem
  {
    var mins := rem / SecondsPerMinute;
    assert rem == mins * 60 + rem % 60;
    assert mins / 60 == rem / SecondsPerHour;
    assert mins == mins / 60 * 60 + mins % 60;
  }

  /** Where Parse finds each field in a rendering `a + (":" + m + ":" + s)`. */
  lemma ParseFields(a: string, m: string, s: string)
    requires |m| == 2 && |s| == 2
    ensures var t := a + (":" + m + ":" + s);
      && |t| == |a| + 6 && t[|t| - 6] == ':' && t[|t| - 3] == ':'
      && t[..|t| - 6] == a && t[|t| - 5..|t| - 3] == m && t[|t| - 2..] == s
  {
    var b := ":" + m + ":" + s;
    assert b[1..3] == m && b[4..] == s;
    var t := a + b;
    assert t[..|a|] == a;
    assert t[|a| + 1..|a| + 3] == b[1..3];
    assert t[|a| + 4..] == b[4..];
  }

  lemma SplitDigitRun(p: string, h: string)
    requires p == [] || p[|p| - 1] == ' '
    requires AllDigits(h)
    ensures DigitRun(p + h) == |h| && (p + h)[..|p + h| - |h|] == p && (p + h)[|p + h| - |h|..] == h
  {
    DigitRunAfter(p, h);
  }

  /** Parse reads a rendering `(p + h) + (":" + m + ":" + s)` field by field. */
  lemma ParseParts(p: string, h: string, m: string, s: string)
    requires p == [] || p[|p| - 1] == ' '
    requires AllDigits(h) && |m| == 2 && |s| == 2
    ensures Parse((p + h) + (":" + m + ":" + s)) == Combine(ParseDayPrefix(p), ParseNat(h), ParseNat(m), ParseNat(s))
  {
    var t := (p + h) + (":" + m + ":" + s);
    ParseFields(p + h, m, s);
    SplitDigitRun(p, h);
    var head := t[..|t| - 6];
    assert head == p + h;
  }

  /** What Parse reads from each field of `Str(seconds)`. */
  function StrFields(seconds: int): Option<int> {
    var rem := seconds % SecondsPerDay;
    Combine(ParseDayPrefix(DayPrefix(seconds / SecondsPerDay)), ParseNat(NatToString(rem / SecondsPerHour)),
            ParseNat(Pad2(rem / SecondsPerMinute % 60)), ParseNat(Pad2(rem % SecondsPerMinute)))
  }

  lemma ParseStrFields(seconds: int)
    ensures Parse(Str(seconds)) == StrFields(seconds)
  {
    var rem := seconds % SecondsPerDay;
    var p, h, m, s := DayPrefix(seconds / SecondsPerDay), NatToString(rem / SecondsPerHour), Pad2(rem / SecondsPerMinute % 60), Pad2(rem % SecondsPerMinute);
    assert Str(seconds) == (p + h) + (":" + m + ":" + s);
    assert p != [] ==> p[|p| - 1] == ' ';
    ParseParts(p, h, m, s);
  }

  lemma StrFieldsValue(seconds: int)
    ensures StrFields(seconds) == Some(seconds)
  {
    var rem := seconds % SecondsPerDay;
    Pad2Value(rem / SecondsPerMinute % 60);
    Pad2Value(rem % SecondsPerMinute);
    ParseDayPrefixOf(seconds / SecondsPerDay);
    NatToStringValue(rem / SecondsPerHour);
    ClockArith(rem);
  }

  /** Round trip: the rendering of any whole number of seconds reads back as that number. */
  lemma ParseStr(seconds: int)
    ensures Parse(Str(seconds)) == Some(seconds)
  {
    ParseStrFields(seconds);
    StrFieldsValue(seconds);
  }

  /** The rendering is injective: two durations that display alike are equal. */
  lemma StrInjective(a: int, b: int)
    requires Str(a) == Str(b)
    ensures a == b
  {
    ParseStr(a);
    ParseStr(b);
  }

  /** Fewer than ten seconds display as `"0:00:0S"`. */
  lemma StrUnderTenSeconds(seconds: nat)
    requires seconds < 10
    ensures Str(seconds) == "0:00:0" + [DigitChar(seconds)]
  {
    assert seconds / SecondsPerDay == 0 && seconds % SecondsPerDay == seconds;
    assert seconds / SecondsPerHour == 0 && seconds / SecondsPerMinute % 60 == 0 && seconds % SecondsPerMinute == seconds;
    assert NatToString(0) == "0" by { assert DigitChar(0) == '0'; }
    assert Pad2(0) == "00" by { assert DigitChar(0) == '0'; }
    assert Pad2(seconds) == "0" + [DigitChar(seconds)];
    assert Str(seconds) == DayPrefix(0) + Clock(seconds);
    assert Clock(seconds) == NatToString(0) + ":" + Pad2(0) + ":" + Pad2(seconds);
  }

  lemma NoCommaIn(s: string)
    requires AllDigits(s)
    ensures ',' !in s
  {
  }

  /** A `"D day(s), "` prefix, recognisable by its comma, is present exactly when s lies outside [0, 86400). */
  lemma DayPrefixIff(seconds: int)
    ensures (',' in Str(seconds)) <==> !(0 <= seconds < SecondsPerDay)
  {
    var days := seconds / SecondsPerDay;
    var rem := seconds % SecondsPerDay;
    var h, m, s := NatToString(rem / SecondsPerHour), Pad2(rem / SecondsPerMinute % 60), Pad2(rem % SecondsPerMinute);
    NoCommaIn(h);
    NoCommaIn(m);
    NoCommaIn(s);
    assert Clock(rem) == h + ":" + m + ":" + s;
    assert ',' !in Clock(rem);
    if days != 0 {
      var p := DayPrefix(days);
      assert p[|p| - 2] == ',';
      assert Str(seconds)[|p| - 2] == ',';
    } else {
      assert Str(seconds) == Clock(rem);
    }
  }
}
