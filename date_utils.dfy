/** The relative-time label `getTimeAgo`: whole seconds elapsed since a
    timestamp, bucketed into seconds, minutes, hours or days. The clock is a
    parameter; timestamps are integer milliseconds. */
module DateUtils {

  /** The character of a decimal digit. */
  function DigitChar(d: nat): char
    requires d < 10
  {
    (48 + d) as char
  }

  /** True when every character is a decimal digit. */
  predicate AllDigits(s: string)
  {
    forall i :: 0 <= i < |s| ==> '0' <= s[i] <= '9'
  }

  /** The decimal digits of a natural number, without leading zeros. */
  function NatDigits(n: nat): (s: string)
    ensures |s| >= 1 && AllDigits(s)
    ensures s[0] == '0' ==> n == 0
  {
    if n < 10 then [DigitChar(n)] else NatDigits(n / 10) + [DigitChar(n % 10)]
  }

  /** The number a string of decimal digits denotes. */
  function DigitsValue(s: string): int
    requires AllDigits(s)
  {
    if s == [] then 0 else DigitsValue(s[..|s| - 1]) * 10 + (s[|s| - 1] as int - 48)
  }

  /** Reading the digits back gives the number. */
  lemma {:induction false} NatDigitsRoundTrip(n: nat)
    ensures DigitsValue(NatDigits(n)) == n
  {
    if n >= 10 {
      NatDigitsRoundTrip(n / 10);
      var s := NatDigits(n);
      assert s[..|s| - 1] == NatDigits(n / 10);
    }
  }

  /** `${n}` for an integer: a minus sign for negatives, then the digits. */
  function IntToString(n: int): (s: string)
    ensures s != [] && (s[0] == '-' <==> n < 0)
    ensures AllDigits(if n < 0 then s[1..] else s)
  {
    if n < 0 then
      var digits := NatDigits(-n);
      assert ("-" + digits)[1..] == digits;
      "-" + digits
    else NatDigits(n)
  }

  /** The number written by `IntToString`, read back. */
  function ParseInt(s: string): int
    requires s != [] && AllDigits(if s[0] == '-' then s[1..] else s)
  {
    if s[0] == '-' then -DigitsValue(s[1..]) else DigitsValue(s)
  }

  /** `IntToString` loses nothing: parsing its output gives the number back. */
  lemma IntToStringRoundTrip(n: int)
    ensures var s := IntToString(n);
            s != [] && AllDigits(if s[0] == '-' then s[1..] else s) && ParseInt(s) == n
  {
    var s := IntToString(n);
    if n < 0 {
      NatDigitsRoundTrip(-n);
      assert s[1..] == NatDigits(-n);
    } else {
      NatDigitsRoundTrip(n);
    }
  }

  /** `Math.floor((now - timestamp) / 1000)`: Dafny's division by a positive
      divisor rounds toward negative infinity, as `Math.floor` does. */
  function ElapsedSeconds(timestamp: int, now: int): (diff: int)
    ensures diff * 1000 <= now - timestamp < diff * 1000 + 1000
  {
    (now - timestamp) / 1000
  }

  /** `getTimeAgo(timestamp)` at time `now`: the label of the bucket of the
      elapsed whole seconds, so the nested floors of the source agree with
      thresholds written in seconds. */
  function GetTimeAgo(timestamp: int, now: int): (text: string)
    ensures text == Label(Bucket(ElapsedSeconds(timestamp, now)))
  {
    var diff := ElapsedSeconds(timestamp, now);
    if diff < 60 then IntToString(diff) + " sec ago"
    else
      NestedFloors(diff);
      var mins := diff / 60;
      if mins < 60 then IntToString(mins) + " min ago"
      else
        var hrs := mins / 60;
        if hrs < 24 then IntToString(hrs) + " hr ago"
        else
          var days := hrs / 24;
          IntToString(days) + " day" + (if days > 1 then "s" else "") + " ago"
  }

  /** The bucket a label falls in and the count it shows. */
  datatype Elapsed = Seconds(count: int) | Minutes(count: int) | Hours(count: int) | Days(count: int)

  /** The bucket of an elapsed time, with its thresholds written in seconds:
      a minute is 60, an hour 3600, a day 86400. */
  function Bucket(diff: int): (b: Elapsed)
    ensures b.Seconds? <==> diff < 60
    ensures b.Seconds? ==> b.count == diff
    ensures b.Minutes? <==> 60 <= diff < 3600
    ensures b.Minutes? ==> 1 <= b.count <= 59 && b.count * 60 <= diff < b.count * 60 + 60
    ensures b.Hours? <==> 3600 <= diff < 86400
    ensures b.Hours? ==> 1 <= b.count <= 23 && b.count * 3600 <= diff < b.count * 3600 + 3600
    ensures b.Days? <==> 86400 <= diff
    ensures b.Days? ==> 1 <= b.count && b.count * 86400 <= diff < b.count * 86400 + 86400
  {
    if diff < 60 then Seconds(diff)
    else if diff < 3600 then Minutes(diff / 60)
    else if diff < 86400 then Hours(diff / 3600)
    else Days(diff / 86400)
  }

  /** The label of a bucket; the plural "s" only for more than one day. */
  function Label(b: Elapsed): string
  {
    match b
    case Seconds(n) => IntToString(n) + " sec ago"
    case Minutes(n) => IntToString(n) + " min ago"
    case Hours(n) => IntToString(n) + " hr ago"
    case Days(n) => IntToString(n) + " day" + (if n > 1 then "s" else "") + " ago"
  }

  /** Flooring twice by 60 is flooring by 3600, and once more by 24 is flooring by 86400. */
  lemma NestedFloors(diff: int)
    requires diff >= 0
    ensures diff / 60 / 60 == diff / 3600
    ensures diff / 60 / 60 / 24 == diff / 86400
  {
    var q := diff / 3600;
    assert q * 3600 <= diff < q * 3600 + 3600;
    assert diff / 60 / 60 == q by {
      var m := diff / 60;
      assert m * 60 <= diff < m * 60 + 60;
      assert q * 60 <= m < q * 60 + 60;
    }
    var d := diff / 86400;
    assert d * 86400 <= diff < d * 86400 + 86400;
    assert q / 24 == d by {
      assert d * 24 <= q < d * 24 + 24;
    }
  }

  /** Longer elapsed times never fall in an earlier bucket, and within a
      bucket the count never decreases. */
  lemma BucketMonotone(d1: int, d2: int)
    requires d1 <= d2
    ensures Rank(Bucket(d1)) <= Rank(Bucket(d2))
    ensures Rank(Bucket(d1)) == Rank(Bucket(d2)) ==> Bucket(d1).count <= Bucket(d2).count
  {
    var b1, b2 := Bucket(d1), Bucket(d2);
    if Rank(b1) == Rank(b2) && !b1.Seconds? {
      assert b1.count * Unit(b1) <= d1 <= d2 < b2.count * Unit(b1) + Unit(b1);
    }
  }

  /** The position of a bucket, from seconds to days. */
  function Rank(b: Elapsed): nat
  {
    match b
    case Seconds(_) => 0
    case Minutes(_) => 1
    case Hours(_) => 2
    case Days(_) => 3
  }

  /** The length of a bucket's unit in seconds. */
  function Unit(b: Elapsed): nat
  {
    match b
    case Seconds(_) => 1
    case Minutes(_) => 60
    case Hours(_) => 3600
    case Days(_) => 86400
  }

  /** 59 seconds is still counted in seconds. */
  lemma LastSecondLabel()
    ensures GetTimeAgo(0, 59000) == "59 sec ago"
  {
    assert ElapsedSeconds(0, 59000) == 59;
    assert NatDigits(59) == "59" by { assert NatDigits(5) == "5"; }
  }

  /** 60 seconds is one minute and 3600 one hour. */
  lemma FirstMinuteAndHourLabels()
    ensures GetTimeAgo(0, 60000) == "1 min ago"
    ensures GetTimeAgo(0, 3600000) == "1 hr ago"
  {
    assert IntToString(1) == "1";
    assert Bucket(ElapsedSeconds(0, 60000)) == Minutes(1);
    assert Bucket(ElapsedSeconds(0, 3600000)) == Hours(1);
  }

  /** 86400 seconds is one day, and 172800 two days. */
  lemma FirstDaysLabels()
    ensures GetTimeAgo(0, 86400000) == "1 day ago"
    ensures GetTimeAgo(0, 172800000) == "2 days ago"
  {
    assert IntToString(1) == "1" && IntToString(2) == "2";
    assert Bucket(ElapsedSeconds(0, 86400000)) == Days(1);
    assert Bucket(ElapsedSeconds(0, 172800000)) == Days(2);
  }

  /** A timestamp 10.5 seconds in the future floors to -11 seconds. */
  lemma FutureTimestampLabel()
    ensures GetTimeAgo(10500, 0) == "-11 sec ago"
  {
    assert ElapsedSeconds(10500, 0) == -11;
    assert NatDigits(11) == "11" by { assert NatDigits(1) == "1"; }
  }
}
