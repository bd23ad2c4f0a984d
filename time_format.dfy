/** The duration formatter `parse_seconds` of the music queue: a number of
    seconds rendered as `MM:SS`, or as `H:MM:SS` when there is at least one
    whole hour. */
module TimeFormat {

  predicate IsDigit(c: char) {
    '0' <= c <= '9'
  }

  predicate AllDigits(s: string) {
    forall i :: 0 <= i < |s| ==> IsDigit(s[i])
  }

  function DigitChar(d: nat): (c: char)
    requires d < 10
    ensures IsDigit(c)
  {
    ('0' as int + d) as char
  }

  function DigitValue(c: char): int {
    c as int - '0' as int
  }

  /** The number a string of decimal digits denotes, most significant first. */
  function DecimalValue(s: string): int {
    if s == [] then 0 else DecimalValue(s[..|s| - 1]) * 10 + DigitValue(s[|s| - 1])
  }

  /** Python's `str(n)` for a non-negative integer: decimal, no leading zero. */
  function NatToDecimal(n: nat): (r: string)
    ensures 1 <= |r| && AllDigits(r)
    ensures r[0] != '0' || n == 0
    ensures n < 10 <==> |r| == 1
  {
    if n < 10 then [DigitChar(n)] else NatToDecimal(n / 10) + [DigitChar(n % 10)]
  }

  /** Python's `"%02d" % n` for `n < 100`: two digits, zero padded. */
  function TwoDigits(n: nat): (r: string)
    requires n < 100
    ensures |r| == 2 && AllDigits(r)
    ensures DecimalValue(r) == n
  {
    var r := [DigitChar(n / 10), DigitChar(n % 10)];
    assert r[..1] == [r[0]] && [r[0]][..0] == [];
    assert DecimalValue(r[..1]) == n / 10;
    r
  }

  /** `parse_seconds(seconds)`: `divmod` by 60 twice, minutes and seconds
      zero padded, the hour count prefixed only when it is not zero. The
      only caller passes `track.length // 1000` of a non-negative length,
      hence `nat`. */
  function ParseSeconds(seconds: nat): (r: string)
    ensures (|r| == 5) == (seconds < 3600)
    ensures |r| >= 5 && r[|r| - 3] == ':' && AllDigits(r[|r| - 2..])
  {
    var minutes, secs := seconds / 60, seconds % 60;
    var hours, mins := minutes / 60, minutes % 60;
    var result := TwoDigits(mins) + ":" + TwoDigits(secs);
    if hours != 0 then NatToDecimal(hours) + ":" + result else result
  }

  lemma {:induction false} DecimalRoundTrip(n: nat)
    ensures DecimalValue(NatToDecimal(n)) == n
  {
    var r := NatToDecimal(n);
    if n < 10 {
      assert r[..|r| - 1] == [];
    } else {
      assert r[..|r| - 1] == NatToDecimal(n / 10);
      DecimalRoundTrip(n / 10);
    }
  }

  /** Below one hour the text is exactly `MM:SS`: two zero-padded fields,
      each below 60, that together give back the number of seconds. */
  lemma ParseSecondsShort(seconds: nat)
    requires seconds < 3600
    ensures var r := ParseSeconds(seconds);
      |r| == 5 && r[2] == ':' &&
      AllDigits(r[..2]) && AllDigits(r[3..]) &&
      DecimalValue(r[..2]) < 60 && DecimalValue(r[3..]) < 60 &&
      DecimalValue(r[..2]) * 60 + DecimalValue(r[3..]) == seconds
  {
    var r := ParseSeconds(seconds);
    var mins, secs := seconds / 60 % 60, seconds % 60;
    assert r == TwoDigits(mins) + ":" + TwoDigits(secs);
    assert r[..2] == TwoDigits(mins);
    assert r[3..] == TwoDigits(secs);
  }

  /** From one hour on the text is `str(h) + ":" + MM:SS`: an hour field
      without leading zero, then two zero-padded fields below 60, and
      `h * 3600 + MM * 60 + SS` is the number of seconds. */
  lemma ParseSecondsLong(seconds: nat)
    requires seconds >= 3600
    ensures var r := ParseSeconds(seconds);
      var k := |r| - 6;
      k >= 1 && r[k] == ':' && r[k + 3] == ':' &&
      AllDigits(r[..k]) && r[0] != '0' && DecimalValue(r[..k]) >= 1 &&
      AllDigits(r[k + 1..k + 3]) && AllDigits(r[k + 4..]) &&
      DecimalValue(r[k + 1..k + 3]) < 60 && DecimalValue(r[k + 4..]) < 60 &&
      DecimalValue(r[..k]) * 3600 + DecimalValue(r[k + 1..k + 3]) * 60
        + DecimalValue(r[k + 4..]) == seconds
  {
    var r := ParseSeconds(seconds);
    var hours, mins, secs := seconds / 3600, seconds / 60 % 60, seconds % 60;
    assert seconds / 60 / 60 == hours;
    var h := NatToDecimal(hours);
    assert r == h + ":" + TwoDigits(mins) + ":" + TwoDigits(secs);
    var k := |r| - 6;
    assert k == |h|;
    assert r[..k] == h;
    assert r[k + 1..k + 3] == TwoDigits(mins);
    assert r[k + 4..] == TwoDigits(secs);
    DecimalRoundTrip(hours);
  }
}
