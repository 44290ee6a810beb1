/** generateCosmicTimes (script.js:225-235): the 48 half-hour options of the start
    and end dropdowns. */
module Times {

  /** The decimal digit character of d. */
  function Digit(d: nat): (c: char)
    requires d < 10
    ensures '0' <= c <= '9' && c as int - '0' as int == d
  {
    (48 + d) as char
  }

  predicate IsDigit(c: char)
  {
    '0' <= c <= '9'
  }

  function DigitValue(c: char): (d: nat)
    requires IsDigit(c)
    ensures d < 10 && Digit(d) == c
  {
    c as int - '0' as int
  }

  /** `String(n)` for a natural number: its decimal digits, no leading zero. */
  function DecimalString(n: nat): (s: string)
    ensures 1 <= |s| && forall k :: 0 <= k < |s| ==> IsDigit(s[k])
    ensures n < 10 <==> |s| == 1
  {
    if n < 10 then [Digit(n)] else DecimalString(n / 10) + [Digit(n % 10)]
  }

  /** `s.padStart(width, fill)` for a one-character fill. */
  function PadStart(s: string, width: nat, fill: char): string
  {
    if |s| < width then seq(width - |s|, _ => fill) + s else s
  }

  /** padStart leaves `s` at the end and fills up to `width` with `fill` in front. */
  lemma PadStartShape(s: string, width: nat, fill: char)
    ensures var r := PadStart(s, width, fill);
      |r| == (if |s| < width then width else |s|)
      && r[|r| - |s|..] == s
      && forall k :: 0 <= k < |r| - |s| ==> r[k] == fill
  {
  }

  /** `` `${String(h).padStart(2, "0")}:${m}` `` */
  function TimeOption(h: nat, m: string): (r: string)
    ensures h < 100 ==> r == [Digit(h / 10), Digit(h % 10), ':'] + m
  {
    var r := PadStart(DecimalString(h), 2, '0') + ":" + m;
    if h < 100 then HourDigits(h); r else r
  }

  /** The inner loop's `["00", "30"]`. */
  const MinuteMarks: seq<string> := ["00", "30"]

  /** The options in the order the nested loops append them: option k is hour k / 2
      with minute mark k % 2. */
  function CosmicTimes(): (r: seq<string>)
    ensures |r| == 48
  {
    seq(48, k requires 0 <= k < 48 => TimeOption(k / 2, MinuteMarks[k % 2]))
  }

  /** The loops of generateCosmicTimes, appending to the options `select` already
      holds. */
  method GenerateCosmicTimes(select: seq<string>) returns (options: seq<string>)
    ensures options == select + CosmicTimes()
  {
    options := select;
    for h := 0 to 24
      invariant options == select + CosmicTimes()[..2 * h]
    {
      for m := 0 to |MinuteMarks|
        invariant options == select + CosmicTimes()[..2 * h + m]
      {
        var time := TimeOption(h, MinuteMarks[m]);
        assert (2 * h + m) / 2 == h && (2 * h + m) % 2 == m;
        assert CosmicTimes()[..2 * h + m + 1] == CosmicTimes()[..2 * h + m] + [time];
        options := options + [time];
      }
    }
    assert CosmicTimes()[..48] == CosmicTimes();
  }

  /** The two-digit, zero-padded hour. */
  lemma {:induction false} HourDigits(h: nat)
    requires h < 100
    ensures PadStart(DecimalString(h), 2, '0') == [Digit(h / 10), Digit(h % 10)]
  {
    if h >= 10 {
      assert DecimalString(h / 10) == [Digit(h / 10)];
    }
  }

  /** A well-formed option: "HH:MM" with an hour below 24 and MM "00" or "30". */
  predicate IsHalfHourLabel(s: string)
  {
    |s| == 5 && IsDigit(s[0]) && IsDigit(s[1]) && s[2] == ':'
    && DigitValue(s[0]) * 10 + DigitValue(s[1]) < 24
    && (s[3..] == "00" || s[3..] == "30")
  }

  /** The time of day a well-formed option names, in minutes after midnight. */
  function ClockMinutes(s: string): nat
    requires IsHalfHourLabel(s)
  {
    (DigitValue(s[0]) * 10 + DigitValue(s[1])) * 60 + DigitValue(s[3]) * 10 + DigitValue(s[4])
  }

  /** Exactly 48 options; option k is well formed and names minute 30 * k of the
      day, so they run from "00:00" to "23:30" in steps of half an hour. */
  lemma CosmicTimesExact(k: nat)
    requires k < 48
    ensures |CosmicTimes()| == 48
    ensures IsHalfHourLabel(CosmicTimes()[k])
    ensures ClockMinutes(CosmicTimes()[k]) == 30 * k
  {
  }

  lemma CosmicTimesEnds()
    ensures CosmicTimes()[0] == "00:00" && CosmicTimes()[47] == "23:30"
  {
  }

  /** JavaScript's `<` on strings of ASCII characters: lexicographic order. */
  predicate LexLess(a: string, b: string)
  {
    (|a| < |b| && a == b[..|a|])
    || exists p :: 0 <= p < |a| && p < |b| && a[..p] == b[..p] && a[p] < b[p]
  }

  /** The options are in ascending string order too, as the dropdown lists them. */
  lemma CosmicTimesAscending(i: nat, j: nat)
    requires i < j < 48
    ensures LexLess(CosmicTimes()[i], CosmicTimes()[j])
  {
    var a, b := CosmicTimes()[i], CosmicTimes()[j];
    CosmicTimesExact(i);
    CosmicTimesExact(j);
    var p := if a[0] != b[0] then 0 else if a[1] != b[1] then 1 else 3;
    assert a[..p] == b[..p];
    assert a[p] < b[p];
  }
}
