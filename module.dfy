/** Formatting the system uptime (src/module.rs, `convert_seconds`). The
    source works on an `f64` holding a whole number of seconds; here the
    seconds are a natural number, and `/` and `%` stand for `floor(x / k)`
    and the float remainder, which agree with them on whole numbers. */
module Module {
  import opened Wrappers

  const MIN: nat := 60
  const HOUR: nat := MIN * 60
  const DAY: nat := HOUR * 24

  function Days(seconds: nat): nat { seconds / DAY }
  function Hours(seconds: nat): nat { (seconds % DAY) / HOUR }
  function Mins(seconds: nat): nat { ((seconds % DAY) % HOUR) / MIN }

  /** The three counts are whole days, the hours left over from them and the
      minutes left over from those: hours and minutes stay below 24 and 60,
      and together they account for all but the last partial minute. */
  lemma UptimeFields(seconds: nat)
    ensures Hours(seconds) < 24 && Mins(seconds) < 60
    ensures var total := 86400 * Days(seconds) + 3600 * Hours(seconds) + 60 * Mins(seconds);
      total <= seconds < total + 60
  {
  }

  predicate IsDigit(c: char) {
    '0' <= c <= '9'
  }

  predicate AllDigits(s: string) {
    forall i :: 0 <= i < |s| ==> IsDigit(s[i])
  }

  function DigitChar(d: nat): (c: char)
    requires d < 10
    ensures IsDigit(c)
  {
    ('0' as int + d) as char
  }

  /** How `{}` prints a whole number: its decimal digits, no sign, no
      fraction, no leading zero. */
  function DecimalString(n: nat): (s: string)
    ensures |s| > 0 && AllDigits(s)
    ensures n > 0 ==> s[0] != '0'
    decreases n
  {
    if n < 10 then [DigitChar(n)] else DecimalString(n / 10) + [DigitChar(n % 10)]
  }

  /** One part of the uptime text: nothing for a zero count, otherwise the
      count, its unit letter and one space. */
  function Part(count: nat, unit: char): string {
    if count == 0 then "" else DecimalString(count) + [unit, ' ']
  }

  /** `convert_seconds`: days, hours and minutes, each only when non-zero, in
      that order; leftover seconds are dropped, so under a minute of uptime
      prints nothing, and any other uptime ends in one space. */
  function ConvertSeconds(seconds: nat): (r: string)
    ensures r == "" <==> seconds < 60
    ensures r != "" ==> r[|r| - 1] == ' '
  {
    Part(Days(seconds), 'd') + Part(Hours(seconds), 'h') + Part(Mins(seconds), 'm')
  }

  /** A unit letter appears exactly when its count is not zero. */
  lemma UnitPresentIffNonZero(seconds: nat)
    ensures 'd' in ConvertSeconds(seconds) <==> Days(seconds) > 0
    ensures 'h' in ConvertSeconds(seconds) <==> Hours(seconds) > 0
    ensures 'm' in ConvertSeconds(seconds) <==> Mins(seconds) > 0
  {
  }

  // ---- reading the uptime text back ----

  function DigitValue(c: char): nat
    requires IsDigit(c)
  {
    c as int - '0' as int
  }

  /** The number a string of decimal digits denotes. */
  function DecimalValue(s: string): nat
    requires AllDigits(s)
  {
    if s == [] then 0 else 10 * DecimalValue(s[..|s| - 1]) + DigitValue(s[|s| - 1])
  }

  lemma {:induction false} DecimalRoundTrip(n: nat)
    ensures DecimalValue(DecimalString(n)) == n
    decreases n
  {
    if n >= 10 {
      var s := DecimalString(n);
      assert s[..|s| - 1] == DecimalString(n / 10);
      DecimalRoundTrip(n / 10);
    }
  }

  /** Length of the run of digits a string starts with. */
  function DigitRun(s: string): (k: nat)
    ensures k <= |s| && AllDigits(s[..k])
    ensures k < |s| ==> !IsDigit(s[k])
  {
    if s == [] || !IsDigit(s[0]) then 0 else 1 + DigitRun(s[1..])
  }

  lemma {:induction false} DigitRunOf(digits: string, rest: string)
    requires AllDigits(digits)
    requires rest != [] && !IsDigit(rest[0])
    ensures DigitRun(digits + rest) == |digits|
  {
    if digits != [] {
      assert (digits + rest)[1..] == digits[1..] + rest;
      DigitRunOf(digits[1..], rest);
    }
  }

  /** Reads one part "<count><unit> " off the front of `s`, the count written
      without a leading zero; when `s` does not start with such a part, the
      count is 0 and `s` is left as it is. */
  function ReadPart(s: string, unit: char): (nat, string) {
    var k := DigitRun(s);
    if 0 < k && k + 1 < |s| && s[k] == unit && s[k + 1] == ' ' && s[0] != '0'
    then (DecimalValue(s[..k]), s[k + 2..])
    else (0, s)
  }

  lemma {:induction false} LeadingDigitPositive(ds: string)
    requires |ds| > 0 && AllDigits(ds) && ds[0] != '0'
    ensures DecimalValue(ds) > 0
  {
    if |ds| > 1 {
      var init := ds[..|ds| - 1];
      assert init[0] == ds[0];
      LeadingDigitPositive(init);
    }
  }

  /** Digits without a leading zero are exactly how their value prints. */
  lemma {:induction false} DecimalStringOfValue(ds: string)
    requires |ds| > 0 && AllDigits(ds) && ds[0] != '0'
    ensures DecimalString(DecimalValue(ds)) == ds
  {
    var init, last := ds[..|ds| - 1], ds[|ds| - 1];
    assert DigitChar(DigitValue(last)) == last;
    if |ds| == 1 {
      assert DecimalValue(ds) == DigitValue(last);
    } else {
      assert init[0] == ds[0];
      LeadingDigitPositive(init);
      DecimalStringOfValue(init);
      var v := DecimalValue(ds);
      assert v / 10 == DecimalValue(init) && v % 10 == DigitValue(last);
      assert ds == init + [last];
    }
  }

  /** What `ReadPart` takes off the front is a part of that unit as
      `convert_seconds` writes it. */
  lemma ReadPartInverse(s: string, unit: char)
    ensures s == Part(ReadPart(s, unit).0, unit) + ReadPart(s, unit).1
  {
    var k := DigitRun(s);
    if 0 < k && k + 1 < |s| && s[k] == unit && s[k + 1] == ' ' && s[0] != '0' {
      var ds := s[..k];
      assert ds[0] == s[0];
      LeadingDigitPositive(ds);
      DecimalStringOfValue(ds);
      assert s == ds + [unit, ' '] + s[k + 2..];
    } else {
      assert Part(0, unit) + s == s;
    }
  }

  /** Days, hours and minutes as the uptime text states them. */
  datatype Uptime = Uptime(days: nat, hours: nat, mins: nat)

  /** Reads back a text of the form `convert_seconds` produces: optional
      non-zero day, hour and minute parts, in that order, and nothing else
      (`ParseUptimeInverse`). */
  function ParseUptime(s: string): Option<Uptime> {
    var (d, afterDays) := ReadPart(s, 'd');
    var (h, afterHours) := ReadPart(afterDays, 'h');
    var (m, afterMins) := ReadPart(afterHours, 'm');
    if afterMins == [] then Some(Uptime(d, h, m)) else None
  }

  /** A part is read back with its own unit, whatever follows it. */
  lemma ReadOwnPart(count: nat, unit: char, rest: string)
    requires !IsDigit(unit)
    requires ReadPart(rest, unit) == (0, rest)
    ensures ReadPart(Part(count, unit) + rest, unit) == (count, rest)
  {
    if count > 0 {
      var ds := DecimalString(count);
      var s := Part(count, unit) + rest;
      assert s == ds + ([unit, ' '] + rest);
      DigitRunOf(ds, [unit, ' '] + rest);
      assert s[..|ds|] == ds && s[0] == ds[0];
      DecimalRoundTrip(count);
      assert s[|ds| + 2..] == rest;
    } else {
      assert Part(count, unit) + rest == rest;
    }
  }

  /** A part is not read as a part of a different unit. */
  lemma SkipOtherPart(count: nat, other: char, rest: string, unit: char)
    requires !IsDigit(other) && other != unit
    requires ReadPart(rest, unit) == (0, rest)
    ensures ReadPart(Part(count, other) + rest, unit) == (0, Part(count, other) + rest)
  {
    if count > 0 {
      var ds := DecimalString(count);
      var s := Part(count, other) + rest;
      assert s == ds + ([other, ' '] + rest);
      DigitRunOf(ds, [other, ' '] + rest);
      assert s[|ds|] == other;
    } else {
      assert Part(count, other) + rest == rest;
    }
  }

  /** The uptime text determines the counts it was made from: reading it back
      gives days, hours and minutes, so every part present is non-zero, each
      is written once, and they come in the order days, hours, minutes. */
  lemma ConvertSecondsReadsBack(seconds: nat)
    ensures ParseUptime(ConvertSeconds(seconds)) == Some(Uptime(Days(seconds), Hours(seconds), Mins(seconds)))
  {
    var d, h, m := Days(seconds), Hours(seconds), Mins(seconds);
    var pd, ph, pm := Part(d, 'd'), Part(h, 'h'), Part(m, 'm');
    assert ConvertSeconds(seconds) == pd + (ph + (pm + ""));
    assert ReadPart("", 'm') == (0, "") && ReadPart("", 'h') == (0, "") && ReadPart("", 'd') == (0, "");
    ReadOwnPart(m, 'm', "");
    SkipOtherPart(m, 'm', "", 'h');
    SkipOtherPart(m, 'm', "", 'd');
    ReadOwnPart(h, 'h', pm + "");
    SkipOtherPart(h, 'h', pm + "", 'd');
    ReadOwnPart(d, 'd', ph + (pm + ""));
  }

  /** The reader accepts nothing but what the parts it returns print as, so
      it is an exact inverse of the formatting on the texts it accepts. */
  lemma ParseUptimeInverse(s: string)
    requires ParseUptime(s).Some?
    ensures var u := ParseUptime(s).value;
      s == Part(u.days, 'd') + Part(u.hours, 'h') + Part(u.mins, 'm')
  {
    var afterDays := ReadPart(s, 'd').1;
    var afterHours := ReadPart(afterDays, 'h').1;
    ReadPartInverse(s, 'd');
    ReadPartInverse(afterDays, 'h');
    ReadPartInverse(afterHours, 'm');
  }
}
