/**
 * Order ids: a 12-digit `yyMMddHHmmss` timestamp, then the user id in decimal,
 * then a random number in [0, 999] padded to three digits. The clock reading and
 * the random number are inputs.
 */
module OrderIds {

  /** A calendar reading of the wall clock, as the timestamp layout sees it. */
  datatype DateTime = DateTime(year: nat, month: nat, day: nat, hour: nat, minute: nat, second: nat)

  predicate ValidDateTime(t: DateTime) {
    1 <= t.month <= 12 && 1 <= t.day <= 31 && t.hour < 24 && t.minute < 60 && t.second < 60
  }

  predicate IsDigit(c: char) {
    '0' <= c <= '9'
  }

  predicate AllDigits(s: string) {
    forall i :: 0 <= i < |s| ==> IsDigit(s[i])
  }

  function DigitChar(d: nat): (c: char)
    requires d < 10
    ensures IsDigit(c) && (c as int) - ('0' as int) == d
  {
    ((d + '0' as int) as char)
  }

  function DigitValue(c: char): nat
    requires IsDigit(c)
  {
    (c as int) - ('0' as int)
  }

  /** The number a string of decimal digits denotes. */
  function DigitsValue(s: string): nat
    requires AllDigits(s)
  {
    if s == [] then 0 else 10 * DigitsValue(s[..|s| - 1]) + DigitValue(s[|s| - 1])
  }

  /** `%d` of a non-negative integer: no padding, no leading zeros. */
  function Decimal(n: nat): (s: string)
    ensures |s| >= 1 && AllDigits(s)
  {
    if n < 10 then [DigitChar(n)] else Decimal(n / 10) + [DigitChar(n % 10)]
  }

  /** `%02d` of a number below 100. */
  function Pad2(n: nat): (s: string)
    requires n < 100
    ensures |s| == 2 && AllDigits(s)
  {
    [DigitChar(n / 10), DigitChar(n % 10)]
  }

  /** `%03d` of a number below 1000. */
  function Pad3(n: nat): (s: string)
    requires n < 1000
    ensures |s| == 3 && AllDigits(s)
  {
    [DigitChar(n / 100), DigitChar(n / 10 % 10), DigitChar(n % 10)]
  }

  /** The `060102150405` layout: two digits each of year, month, day, hour, minute, second. */
  function Timestamp(t: DateTime): (s: string)
    requires ValidDateTime(t)
    ensures |s| == 12 && AllDigits(s)
  {
    Pad2(t.year % 100) + Pad2(t.month) + Pad2(t.day) + Pad2(t.hour) + Pad2(t.minute) + Pad2(t.second)
  }

  /** A new order id for `userId`, from the clock reading `t` and the random draw `r`. */
  function GenerateOrderID(t: DateTime, userId: nat, r: nat): (id: string)
    requires ValidDateTime(t) && r < 1000
    ensures |id| == 15 + |Decimal(userId)|
    ensures AllDigits(id) && id != ""
    ensures id[..12] == Timestamp(t)
  {
    Timestamp(t) + Decimal(userId) + Pad3(r)
  }

  lemma DigitsValueSnoc(s: string, c: char)
    requires AllDigits(s) && IsDigit(c)
    ensures AllDigits(s + [c]) && DigitsValue(s + [c]) == 10 * DigitsValue(s) + DigitValue(c)
  {
  }

  /** Decimal formatting reads back to the number it formats. */
  lemma {:induction false} DecimalRoundTrip(n: nat)
    ensures DigitsValue(Decimal(n)) == n
    decreases n
  {
    if n >= 10 {
      DecimalRoundTrip(n / 10);
      DigitsValueSnoc(Decimal(n / 10), DigitChar(n % 10));
    } else {
      assert Decimal(n)[..0] == [];
    }
  }

  lemma Pad2RoundTrip(n: nat)
    requires n < 100
    ensures DigitsValue(Pad2(n)) == n
  {
    var s := Pad2(n);
    DigitsValueSnoc([], s[0]);
    DigitsValueSnoc([s[0]], s[1]);
    assert [s[0]] + [s[1]] == s;
  }

  /** The three-digit suffix reads back to the random draw. */
  lemma Pad3RoundTrip(n: nat)
    requires n < 1000
    ensures DigitsValue(Pad3(n)) == n
  {
    var s := Pad3(n);
    DigitsValueSnoc([], s[0]);
    DigitsValueSnoc([s[0]], s[1]);
    DigitsValueSnoc([s[0], s[1]], s[2]);
    assert [s[0]] + [s[1]] == [s[0], s[1]];
    assert [s[0], s[1]] + [s[2]] == s;
    var q := n / 10;
    assert n == 10 * q + n % 10;
    assert q == 10 * (q / 10) + q % 10;
    assert q / 10 == n / 100;
  }

  /** Two clock readings give the same timestamp exactly when they agree to the second, modulo the century. */
  lemma TimestampInjective(t1: DateTime, t2: DateTime)
    requires ValidDateTime(t1) && ValidDateTime(t2)
    ensures Timestamp(t1) == Timestamp(t2) <==>
      t1.year % 100 == t2.year % 100 && t1.month == t2.month && t1.day == t2.day &&
      t1.hour == t2.hour && t1.minute == t2.minute && t1.second == t2.second
  {
    if Timestamp(t1) == Timestamp(t2) {
      var s1, s2 := Timestamp(t1), Timestamp(t2);
      assert s1[0..2] == Pad2(t1.year % 100) && s2[0..2] == Pad2(t2.year % 100);
      assert s1[2..4] == Pad2(t1.month) && s2[2..4] == Pad2(t2.month);
      assert s1[4..6] == Pad2(t1.day) && s2[4..6] == Pad2(t2.day);
      assert s1[6..8] == Pad2(t1.hour) && s2[6..8] == Pad2(t2.hour);
      assert s1[8..10] == Pad2(t1.minute) && s2[8..10] == Pad2(t2.minute);
      assert s1[10..12] == Pad2(t1.second) && s2[10..12] == Pad2(t2.second);
      Pad2RoundTrip(t1.year % 100); Pad2RoundTrip(t2.year % 100);
      Pad2RoundTrip(t1.month); Pad2RoundTrip(t2.month);
      Pad2RoundTrip(t1.day); Pad2RoundTrip(t2.day);
      Pad2RoundTrip(t1.hour); Pad2RoundTrip(t2.hour);
      Pad2RoundTrip(t1.minute); Pad2RoundTrip(t2.minute);
      Pad2RoundTrip(t1.second); Pad2RoundTrip(t2.second);
    }
  }

  /**
   * The id can be taken apart again: its last three digits are the random draw
   * and the digits between the timestamp and the suffix are the user id.
   */
  lemma {:induction false} OrderIDParts(t: DateTime, userId: nat, r: nat)
    requires ValidDateTime(t) && r < 1000
    ensures var id := GenerateOrderID(t, userId, r);
      && DigitsValue(id[12..|id| - 3]) == userId
      && DigitsValue(id[|id| - 3..]) == r
  {
    var id := GenerateOrderID(t, userId, r);
    assert id[12..|id| - 3] == Decimal(userId);
    assert id[|id| - 3..] == Pad3(r);
    DecimalRoundTrip(userId);
    Pad3RoundTrip(r);
  }

  /**
   * Two ids collide exactly when the clock readings agree to the second (modulo
   * the century) and the user ids and the random draws are equal.
   */
  lemma OrderIDInjective(t1: DateTime, u1: nat, r1: nat, t2: DateTime, u2: nat, r2: nat)
    requires ValidDateTime(t1) && r1 < 1000 && ValidDateTime(t2) && r2 < 1000
    ensures GenerateOrderID(t1, u1, r1) == GenerateOrderID(t2, u2, r2) <==>
      Timestamp(t1) == Timestamp(t2) && u1 == u2 && r1 == r2
  {
    var id1, id2 := GenerateOrderID(t1, u1, r1), GenerateOrderID(t2, u2, r2);
    if id1 == id2 {
      OrderIDParts(t1, u1, r1);
      OrderIDParts(t2, u2, r2);
    }
  }
}
