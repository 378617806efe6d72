/**
 What an order's identity and price become on the wire: the order id printed by the exchange and
 read back with `strtol`, and the price narrowed to 32 bits.
 */
module Wire {

  const LONG_MAX: int := 0x7FFF_FFFF_FFFF_FFFF
  const LONG_MIN: int := -0x8000_0000_0000_0000
  const TWO31: int := 0x8000_0000
  const TWO32: int := 0x1_0000_0000

  // ---------------------------------------------------------------------------
  // Order references
  // ---------------------------------------------------------------------------

  function Digit(d: nat): char
    requires d < 10
  {
    '0' + d as char
  }

  /** `std::to_string` of an order number. */
  function Decimal(n: nat): string {
    if n < 10 then [Digit(n)] else Decimal(n / 10) + [Digit(n % 10)]
  }

  predicate IsDigit(c: char) {
    '0' <= c <= '9'
  }

  predicate IsSpace(c: char) {
    c == ' ' || '\t' <= c <= '\r'
  }

  function SkipSpace(s: string): string {
    if s != [] && IsSpace(s[0]) then SkipSpace(s[1..]) else s
  }

  /** The value of the leading digits of `s`, after digits worth `acc`. */
  function LeadingDigits(s: string, acc: nat): nat {
    if s == [] || !IsDigit(s[0]) then acc else LeadingDigits(s[1..], acc * 10 + (s[0] - '0') as nat)
  }

  function Clamp(v: int): int {
    if v > LONG_MAX then LONG_MAX else if v < LONG_MIN then LONG_MIN else v
  }

  /** `strtol(s, nullptr, 10)`: leading space, one sign, the digits up to the first other character; out of
      range values saturate. */
  function Strtol(s: string): int {
    var t := SkipSpace(s);
    if t != [] && t[0] == '-' then Clamp(-(LeadingDigits(t[1..], 0) as int))
    else if t != [] && t[0] == '+' then Clamp(LeadingDigits(t[1..], 0))
    else Clamp(LeadingDigits(t, 0))
  }

  /** The reference number the feed carries for order `n`. */
  function Reference(n: nat): int {
    Strtol(Decimal(n))
  }

  predicate AllDigits(s: string) {
    forall i :: 0 <= i < |s| ==> IsDigit(s[i])
  }

  lemma {:induction false} DecimalIsDigits(n: nat)
    ensures |Decimal(n)| > 0 && AllDigits(Decimal(n))
    decreases n
  {
    if n >= 10 {
      DecimalIsDigits(n / 10);
    }
  }

  lemma {:induction false} LastDigit(s: string, d: nat, acc: nat)
    requires AllDigits(s) && d < 10
    ensures LeadingDigits(s + [Digit(d)], acc) == LeadingDigits(s, acc) * 10 + d
    decreases |s|
  {
    var t := s + [Digit(d)];
    if s == [] {
      assert t[1..] == [];
      assert LeadingDigits(t[1..], acc * 10 + d) == acc * 10 + d;
    } else {
      assert t[1..] == s[1..] + [Digit(d)];
      LastDigit(s[1..], d, acc * 10 + (s[0] - '0') as nat);
    }
  }

  lemma {:induction false} DecimalReadsBack(n: nat)
    ensures LeadingDigits(Decimal(n), 0) == n
    decreases n
  {
    if n < 10 {
      LastDigit([], n, 0);
      assert [] + [Digit(n)] == Decimal(n);
    } else {
      DecimalIsDigits(n / 10);
      DecimalReadsBack(n / 10);
      LastDigit(Decimal(n / 10), n % 10, 0);
    }
  }

  /** An order number survives the trip through its printed id exactly when it fits a signed 64-bit long. */
  lemma ReferenceRoundTrip(n: nat)
    ensures Reference(n) == n <==> n < TWO31 * TWO32
    ensures n >= TWO31 * TWO32 ==> Reference(n) == LONG_MAX == TWO31 * TWO32 - 1
  {
    DecimalIsDigits(n);
    DecimalReadsBack(n);
    assert IsDigit(Decimal(n)[0]);
  }

  lemma {:induction false} SpaceIsSkipped(space: string, rest: string)
    requires forall i :: 0 <= i < |space| ==> space[i] == ' ' || 9 <= space[i] as int <= 13
    requires rest == [] || !(rest[0] == ' ' || 9 <= rest[0] as int <= 13)
    ensures SkipSpace(space + rest) == rest
    decreases |space|
  {
    if space == [] {
      assert space + rest == rest;
    } else {
      assert (space + rest)[1..] == space[1..] + rest;
      SpaceIsSkipped(space[1..], rest);
    }
  }

  lemma {:induction false} DigitsStop(s: string, rest: string, acc: nat)
    requires AllDigits(s) && (rest == [] || !('0' <= rest[0] <= '9'))
    ensures LeadingDigits(s + rest, acc) == LeadingDigits(s, acc)
    decreases |s|
  {
    if s == [] {
      assert s + rest == rest;
    } else {
      assert (s + rest)[1..] == s[1..] + rest;
      DigitsStop(s[1..], rest, acc * 10 + (s[0] - '0') as nat);
    }
  }

  /** What `strtol` reads from white space, a sign, a number and anything else after it. */
  lemma StrtolReads(space: string, sign: string, n: nat, rest: string)
    requires forall i :: 0 <= i < |space| ==> space[i] == ' ' || 9 <= space[i] as int <= 13
    requires sign in {"", "+", "-"} && (rest == [] || !('0' <= rest[0] <= '9'))
    ensures Strtol(space + (sign + (Decimal(n) + rest))) ==
            if sign == "-" then (if n <= TWO31 * TWO32 then -(n as int) else -TWO31 * TWO32)
            else if n < TWO31 * TWO32 then n as int else TWO31 * TWO32 - 1
  {
    DecimalIsDigits(n);
    DecimalReadsBack(n);
    DigitsStop(Decimal(n), rest, 0);
    var number := Decimal(n) + rest;
    assert IsDigit(number[0]) && LeadingDigits(number, 0) == n;
    SpaceIsSkipped(space, sign + number);
    if sign == "" {
      assert sign + number == number;
    } else {
      assert (sign + number)[1..] == number;
    }
  }

  /** Where there is no number `strtol` reads 0. */
  lemma StrtolOfNoNumber(space: string, rest: string)
    requires forall i :: 0 <= i < |space| ==> space[i] == ' ' || 9 <= space[i] as int <= 13
    requires rest == [] || !(rest[0] == ' ' || 9 <= rest[0] as int <= 13 || '0' <= rest[0] <= '9')
    requires rest != [] && (rest[0] == '+' || rest[0] == '-') ==> |rest| == 1 || !('0' <= rest[1] <= '9')
    ensures Strtol(space + rest) == 0
  {
    SpaceIsSkipped(space, rest);
  }

  /** Two orders share a reference exactly when they are the same order or both saturate. */
  lemma ReferencesCollide(n: nat, m: nat)
    ensures Reference(n) == Reference(m) <==> n == m || (n >= LONG_MAX && m >= LONG_MAX)
  {
    ReferenceRoundTrip(n);
    ReferenceRoundTrip(m);
  }

  // ---------------------------------------------------------------------------
  // Prices
  // ---------------------------------------------------------------------------

  predicate FitsInt32(v: int) {
    -TWO31 <= v < TWO31
  }

  /** The conversion `(int32_t)v`. */
  function ToInt32(v: int): int {
    (v + TWO31) % TWO32 - TWO31
  }

  /** Integer division as C++ does it, toward zero. */
  function TruncDiv(a: int, b: int): int
    requires b > 0
  {
    if a >= 0 then a / b else -(-a / b)
  }

  /** The cast binds tighter than the division: the price is narrowed before it is scaled. */
  function ToItchPrice(price: int): int {
    TruncDiv(ToInt32(price), 100)
  }

  function FromItchPrice(price: int): int
    requires FitsInt32(price * 100)
  {
    price * 100
  }

  /** The cast gives the one 32-bit value congruent to `v`. */
  lemma NarrowingIsExact(v: int)
    ensures FitsInt32(ToInt32(v)) && (v - ToInt32(v)) % TWO32 == 0
    ensures ToInt32(v) == v <==> FitsInt32(v)
    ensures !FitsInt32(v) ==> ToInt32(v) <= v - TWO32 || ToInt32(v) >= v + TWO32
  {
  }

  /** Dropping two decimals and no more, as the comment on `to_itch_price` promises, holds exactly for prices
      that fit 32 bits before scaling, a hundredth of what the 32-bit field can carry. */
  lemma PriceSurvives(price: int)
    ensures ToItchPrice(price) == TruncDiv(price, 100) <==> FitsInt32(price)
    ensures FitsInt32(ToItchPrice(price) * 100)
    ensures -100 < FromItchPrice(ToItchPrice(price)) - price < 100 <==> FitsInt32(price)
    ensures FromItchPrice(ToItchPrice(price)) == price <==> FitsInt32(price) && price % 100 == 0
  {
    NarrowingIsExact(price);
  }

  lemma OneOfEachClass(v: int, a: int, b: int)
    requires FitsInt32(a) && FitsInt32(b) && (v - a) % TWO32 == 0 && (v - b) % TWO32 == 0
    ensures a == b
  {
  }

  lemma ScaledDown(v: int)
    ensures
      var back := TruncDiv(v, 100) * 100;
      if v >= 0 then v - 100 < back <= v && 0 <= back else v <= back < v + 100 && back <= 0
  {
  }

  /** What every price goes out as: it decodes to within 100 of the one 32-bit value congruent to the price, on the
      side of 0. */
  lemma PriceSent(price: int, narrowed: int)
    requires FitsInt32(narrowed) && (price - narrowed) % TWO32 == 0
    ensures
      var back := FromItchPrice(ToItchPrice(price));
      if narrowed >= 0 then narrowed - 100 < back <= narrowed && 0 <= back
      else narrowed <= back < narrowed + 100 && back <= 0
  {
    NarrowingIsExact(price);
    OneOfEachClass(price, narrowed, ToInt32(price));
    ScaledDown(narrowed);
  }

  /** An order without a limit price, whose price is the largest there is, is announced at 0. */
  lemma UnpricedOrderSentAtZero()
    ensures ToItchPrice(LONG_MAX) == 0
  {
  }

  /** A price the field has room for, 2147.483648, goes out negative. */
  lemma RepresentablePriceGarbled()
    ensures FitsInt32(TruncDiv(TWO31, 100)) && ToItchPrice(TWO31) == -21_474_836
  {
  }
}
