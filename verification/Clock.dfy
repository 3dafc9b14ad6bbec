/** Clock strings as the profile form sends them and as the database column holds them. */
module Clock {
  import opened Wrappers
  import opened Decimal

  type Micros = int

  const MINUTE: Micros := 60_000_000
  const HOUR: Micros := 3_600_000_000
  const DAY: Micros := 86_400_000_000

  /** Go's layout "15:04": an hour of one or two digits, a colon, a minute of two. */
  function ParseClock(value: string): Option<Micros> {
    if |value| == 0 || !IsDigit(value[0]) then
      None
    else
      var width := if |value| > 1 && IsDigit(value[1]) then 2 else 1;
      var hour := if width == 2 then 10 * DigitOf(value[0]) + DigitOf(value[1]) else DigitOf(value[0]);
      var rest := value[width..];
      if hour >= 24 || |rest| != 3 || rest[0] != ':' || !IsDigit(rest[1]) || !IsDigit(rest[2]) then
        None
      else
        var minute := 10 * DigitOf(rest[1]) + DigitOf(rest[2]);
        if minute >= 60 then None else Some(hour * HOUR + minute * MINUTE)
  }

  function TwoDigits(n: nat): string
    requires n < 100
  {
    [DigitChar(n / 10), DigitChar(n % 10)]
  }

  function FormatClock(value: Micros): string
    requires 0 <= value < 100 * HOUR
  {
    var totalMinutes := value / 1_000_000 / 60;
    TwoDigits(totalMinutes / 60) + ":" + TwoDigits(totalMinutes % 60)
  }

  /** "HH:MM", the hour written with two digits. */
  predicate ZeroPadded(value: string) {
    |value| == 5
  }

  /** Lexicographic order of strings. */
  predicate Less(a: string, b: string) {
    if |b| == 0 then false
    else if |a| == 0 then true
    else if a[0] != b[0] then a[0] < b[0]
    else Less(a[1..], b[1..])
  }

  lemma {:induction false} LessIsTotal(a: string, b: string)
    ensures a == b || Less(a, b) || Less(b, a)
    ensures !(Less(a, b) && Less(b, a))
  {
    if |a| > 0 && |b| > 0 && a[0] == b[0] {
      LessIsTotal(a[1..], b[1..]);
      assert a == [a[0]] + a[1..] && b == [b[0]] + b[1..];
    }
  }

  lemma ParsedRange(value: string)
    requires ParseClock(value).Some?
    ensures 0 <= ParseClock(value).value < DAY
    ensures ParseClock(value).value % MINUTE == 0
  {
    var width := if |value| > 1 && IsDigit(value[1]) then 2 else 1;
    var hour := if width == 2 then 10 * DigitOf(value[0]) + DigitOf(value[1]) else DigitOf(value[0]);
    var rest := value[width..];
    var minute := 10 * DigitOf(rest[1]) + DigitOf(rest[2]);
    assert ParseClock(value).value == (60 * hour + minute) * MINUTE;
  }

  /** What is stored comes back from its canonical form. */
  lemma ParseFormatted(value: Micros)
    requires 0 <= value < DAY && value % MINUTE == 0
    ensures ZeroPadded(FormatClock(value)) && ParseClock(FormatClock(value)) == Some(value)
  {
    var minutes := value / MINUTE;
    assert value == minutes * MINUTE;
    assert value / 1_000_000 / 60 == minutes;
    var text := FormatClock(value);
    assert text[2..] == ":" + TwoDigits(minutes % 60);
    var h, m := minutes / 60, minutes % 60;
    assert 10 * (h / 10) + h % 10 == h && 10 * (m / 10) + m % 10 == m;
    assert h * HOUR + m * MINUTE == value;
  }

  /** Among zero-padded clocks, time order is string order. */
  lemma PaddedOrder(a: string, b: string)
    requires ZeroPadded(a) && ZeroPadded(b)
    requires ParseClock(a).Some? && ParseClock(b).Some?
    requires ParseClock(a).value < ParseClock(b).value
    ensures Less(a, b)
  {
    assert IsDigit(a[1]) && IsDigit(b[1]);
    assert a[2..][1] == a[3] && a[2..][2] == a[4] && b[2..][1] == b[3] && b[2..][2] == b[4];
    assert a[2] == ':' && b[2] == ':';
    var ha, ma := 10 * DigitOf(a[0]) + DigitOf(a[1]), 10 * DigitOf(a[3]) + DigitOf(a[4]);
    var hb, mb := 10 * DigitOf(b[0]) + DigitOf(b[1]), 10 * DigitOf(b[3]) + DigitOf(b[4]);
    assert ha < hb || (ha == hb && ma < mb);
    if a[0] == b[0] {
      assert Less(a, b) == Less(a[1..], b[1..]);
      if a[1] == b[1] {
        assert a[1..][1..] == a[2..] && b[1..][1..] == b[2..];
        assert a[2..][1..] == a[3..] && b[2..][1..] == b[3..];
        if a[3] == b[3] {
          assert a[3..][1..] == a[4..] && b[3..][1..] == b[4..];
          assert Less(a[4..], b[4..]);
        }
        assert Less(a[3..], b[3..]);
        assert Less(a[2..], b[2..]);
      }
    }
  }

  // ----- the clock told by hours and minutes -----

  /** The hour as one digit or two, then the minutes. */
  predicate Reads(value: string, hour: nat, minute: nat) {
    && hour < 24 && minute < 60
    && (value == TwoDigits(hour) + ":" + TwoDigits(minute)
        || (hour < 10 && value == [DigitChar(hour)] + ":" + TwoDigits(minute)))
  }

  lemma TwoDigitsValue(n: nat)
    requires n < 100
    ensures IsDigit(TwoDigits(n)[0]) && IsDigit(TwoDigits(n)[1])
    ensures 10 * DigitOf(TwoDigits(n)[0]) + DigitOf(TwoDigits(n)[1]) == n
  {
  }

  lemma TwoDigitsOf(a: char, b: char)
    requires IsDigit(a) && IsDigit(b)
    ensures TwoDigits(10 * DigitOf(a) + DigitOf(b)) == [a, b]
  {
  }

  /** What reads as an hour and a minute is accepted, as that many microseconds. */
  lemma ReadsParses(value: string, hour: nat, minute: nat)
    requires Reads(value, hour, minute)
    ensures ParseClock(value) == Some((60 * hour + minute) * 60_000_000)
  {
    TwoDigitsValue(hour);
    TwoDigitsValue(minute);
    var tail := ":" + TwoDigits(minute);
    if value == TwoDigits(hour) + ":" + TwoDigits(minute) {
      assert value[2..] == tail;
    } else {
      assert value[1..] == tail && value[0] == DigitChar(hour) && value[1] == ':';
    }
    assert hour * HOUR + minute * MINUTE == (60 * hour + minute) * 60_000_000;
  }

  /** And nothing else is. */
  lemma ParsesReads(value: string) returns (hour: nat, minute: nat)
    requires ParseClock(value).Some?
    ensures Reads(value, hour, minute)
  {
    var width := if |value| > 1 && IsDigit(value[1]) then 2 else 1;
    var rest := value[width..];
    hour := if width == 2 then 10 * DigitOf(value[0]) + DigitOf(value[1]) else DigitOf(value[0]);
    minute := 10 * DigitOf(rest[1]) + DigitOf(rest[2]);
    TwoDigitsOf(rest[1], rest[2]);
    assert rest == ":" + TwoDigits(minute);
    if width == 2 {
      TwoDigitsOf(value[0], value[1]);
      assert value == value[..2] + rest && value[..2] == TwoDigits(hour);
    } else {
      assert value == value[..1] + rest && value[..1] == [DigitChar(hour)];
    }
  }

  /** A stored value is shown with two digits each. */
  lemma FormatReads(hour: nat, minute: nat)
    requires hour < 24 && minute < 60
    ensures FormatClock((60 * hour + minute) * 60_000_000) == TwoDigits(hour) + ":" + TwoDigits(minute)
  {
    var value := (60 * hour + minute) * 60_000_000;
    assert value / 1_000_000 / 60 == 60 * hour + minute;
  }

  /** The order of strings: the first character that differs decides, and a text comes after its beginnings. */
  lemma {:induction false} LessIff(a: string, b: string)
    ensures Less(a, b) <==>
              || (a < b)
              || (exists k :: 0 <= k < |a| && k < |b| && a[..k] == b[..k] && a[k] < b[k])
  {
    if |a| > 0 && |b| > 0 && a[0] == b[0] {
      LessIff(a[1..], b[1..]);
      assert a == [a[0]] + a[1..] && b == [b[0]] + b[1..];
      FirstDifference(a, b);
    } else if |a| > 0 && |b| > 0 {
      if a[0] < b[0] { assert a[..0] == b[..0]; }
      forall k | 0 <= k < |a| && k < |b| && a[..k] == b[..k] && a[k] < b[k] ensures a[0] < b[0] {
        if k > 0 { assert a[..k][0] == b[..k][0]; }
      }
    }
  }

  lemma FirstDifference(a: string, b: string)
    requires |a| > 0 && |b| > 0 && a[0] == b[0]
    ensures (exists k :: 0 <= k < |a| && k < |b| && a[..k] == b[..k] && a[k] < b[k]) <==>
            (exists k :: 0 <= k < |a[1..]| && k < |b[1..]| && a[1..][..k] == b[1..][..k] && a[1..][k] < b[1..][k])
  {
    if k :| 0 <= k < |a| && k < |b| && a[..k] == b[..k] && a[k] < b[k] {
      assert k > 0;
      assert a[1..][..k - 1] == a[..k][1..] && b[1..][..k - 1] == b[..k][1..];
      assert a[1..][k - 1] < b[1..][k - 1];
    }
    if k :| 0 <= k < |a[1..]| && k < |b[1..]| && a[1..][..k] == b[1..][..k] && a[1..][k] < b[1..][k] {
      assert a[..k + 1] == [a[0]] + a[1..][..k] && b[..k + 1] == [b[0]] + b[1..][..k];
      assert a[k + 1] < b[k + 1];
    }
  }
}
