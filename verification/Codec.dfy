/** Amounts in the payload: paise to rupees and back through doubles. */
module Codec {

  const TWO_51 := 2251799813685248
  const TWO_52 := 4503599627370496.0
  const TWO_53 := 9007199254740992.0

  function Abs(x: real): real {
    if x < 0.0 then -x else x
  }

  predicate Whole(x: real) {
    x == x.Floor as real
  }

  /** y is what a double may be for x, up to 2^53: relative error at most 2^-53 away from underflow, no jump below
      it, and exact on integers. */
  predicate Rounded(x: real, y: real) {
    && (0.005 <= Abs(x) <= TWO_53 ==> Abs(y - x) * TWO_53 <= Abs(x))
    && (Abs(x) < 0.005 ==> Abs(y) < 0.01)
    && (Whole(x) && Abs(x) <= TWO_53 ==> y == x)
  }

  /** All that the round trip needs of the machine's rounding. */
  ghost predicate DoubleRounding(fl: real -> real) {
    forall x: real :: Rounded(x, fl(x))
  }

  /** std::round: to the nearest integer, halves away from zero. */
  function RoundHalfAway(x: real): int {
    if x >= 0.0 then (x + 0.5).Floor else -((-x + 0.5).Floor)
  }

  /** No integer is nearer, and of two equally near ones it is the one further from zero. */
  lemma {:induction false} RoundsToNearest(x: real)
    ensures Abs(RoundHalfAway(x) as real - x) <= 0.5
    ensures Abs(RoundHalfAway(x) as real - x) == 0.5 ==> Abs(RoundHalfAway(x) as real) > Abs(x)
  {
  }

  function ToRupees(fl: real -> real, paise: int): real {
    fl(fl(paise as real) / 100.0)
  }

  function ToPaise(fl: real -> real, rupees: real): int {
    RoundHalfAway(fl(rupees * 100.0))
  }

  /** The server reads back the amount the phone wrote. */
  predicate AmountSurvives(fl: real -> real, paise: int) {
    ToPaise(fl, ToRupees(fl, paise)) == paise
  }

  /** Two relative errors of 2^-53 in a row, r for the quotient and y for the product, stay below half a paisa. */
  lemma {:induction false} TripReturns(paise: int, r: real, y: real)
    requires -TWO_51 < paise < TWO_51
    requires Abs(r - paise as real / 100.0) * TWO_53 <= Abs(paise as real / 100.0)
    requires Abs(y - r * 100.0) * TWO_53 <= Abs(r * 100.0)
    ensures RoundHalfAway(y) == paise
  {
  }

  lemma {:induction false} HundredthInRange(paise: int)
    requires -TWO_51 < paise < TWO_51
    ensures paise == 0 || 0.005 <= Abs(paise as real / 100.0) <= TWO_53
  {
  }

  lemma {:induction false} RupeesError(fl: real -> real, paise: int)
    requires DoubleRounding(fl) && -TWO_51 < paise < TWO_51
    ensures Abs(ToRupees(fl, paise) - paise as real / 100.0) * TWO_53 <= Abs(paise as real / 100.0)
  {
    var a := paise as real;
    assert Rounded(a, fl(a));
    assert fl(a) == a;
    HundredthInRange(paise);
    assert Rounded(a / 100.0, fl(a / 100.0));
  }

  /** The product stays clear of underflow and of 2^53. */
  lemma {:induction false} ProductInRange(paise: int, r: real)
    requires -TWO_51 < paise < TWO_51 && paise != 0
    requires Abs(r - paise as real / 100.0) * TWO_53 <= Abs(paise as real / 100.0)
    ensures 0.005 <= Abs(r * 100.0) <= TWO_53
  {
  }

  /** Amounts below 2^51 paise survive the trip through a double number of rupees, whatever the rounding. */
  lemma {:induction false} AmountRoundTrip(fl: real -> real, paise: int)
    requires DoubleRounding(fl) && -TWO_51 < paise < TWO_51
    ensures AmountSurvives(fl, paise)
  {
    var r := ToRupees(fl, paise);
    RupeesError(fl, paise);
    assert Rounded(r * 100.0, fl(r * 100.0));
    if paise == 0 {
      assert r == 0.0;
    } else {
      ProductInRange(paise, r);
      TripReturns(paise, r, fl(r * 100.0));
    }
  }

  /** An amount written as a whole number is read as rupees: 100 paise each, exactly. */
  lemma {:induction false} WholeRupees(fl: real -> real, n: int)
    requires DoubleRounding(fl) && -90071992547409 <= n <= 90071992547409
    ensures ToPaise(fl, fl(n as real)) == 100 * n
  {
    var a := n as real;
    assert Rounded(a, fl(a));
    assert fl(a) == a;
    var product := (100 * n) as real;
    assert a * 100.0 == product;
    assert Rounded(product, fl(product));
  }

  /** Any double number of rupees is read as the nearest paisa, but for the error of one multiplication. */
  lemma {:induction false} NearestPaisa(fl: real -> real, rupees: real)
    requires DoubleRounding(fl) && Abs(rupees * 100.0) <= TWO_53
    ensures Abs(ToPaise(fl, rupees) as real - rupees * 100.0) <= 0.5 + Abs(rupees * 100.0) / TWO_53
  {
    var x := rupees * 100.0;
    assert Rounded(x, fl(x));
    RoundsToNearest(fl(x));
    if Abs(x) < 0.005 {
      assert ToPaise(fl, rupees) == 0;
    } else {
      assert Abs(fl(x) - x) <= Abs(x) / TWO_53;
    }
  }

  // ---- the rounding the machine uses ----

  /** To the nearest integer, ties to even. */
  function RoundHalfEven(x: real): int {
    var n := x.Floor;
    var rest := x - n as real;
    if rest < 0.5 || (rest == 0.5 && n % 2 == 0) then n else n + 1
  }

  lemma {:induction false} TiesGoToEven(x: real)
    ensures Abs(RoundHalfEven(x) as real - x) <= 0.5
    ensures Abs(RoundHalfEven(x) as real - x) == 0.5 ==> RoundHalfEven(x) % 2 == 0
  {
  }

  /** Scale up until the significand has 53 bits, at most `scale` times, and round to an integer there. */
  function RoundScaled(x: real, scale: nat): real
    decreases scale
  {
    if Abs(x) >= TWO_52 || scale == 0 then RoundHalfEven(x) as real
    else RoundScaled(x * 2.0, scale - 1) / 2.0
  }

  /** Rounding to 53 significant bits, to nearest even; below 2^53 this is IEEE 754 binary64 when `scale` is 1074,
      subnormal numbers included. */
  function Binary53(scale: nat): real -> real {
    x => RoundScaled(x, scale)
  }

  function Pow2(n: nat): (r: int)
    ensures r > 0
  {
    if n == 0 then 1 else 2 * Pow2(n - 1)
  }

  lemma {:induction false} Pow2Grows(m: nat, n: nat)
    requires m <= n
    ensures Pow2(m) <= Pow2(n)
    decreases n
  {
    if m < n {
      Pow2Grows(m, n - 1);
    }
  }

  lemma {:induction false} DoubledReaches(x: real, scale: nat)
    requires scale > 0
    ensures Abs(x * 2.0) * Pow2(scale - 1) as real == Abs(x) * Pow2(scale) as real
  {
    var p := Pow2(scale - 1) as real;
    assert Pow2(scale) as real == 2.0 * p;
    assert Abs(x * 2.0) == Abs(x) * 2.0;
  }

  lemma {:induction false} RoundHalfEvenError(x: real)
    requires Abs(x) >= TWO_52
    ensures Abs(RoundHalfEven(x) as real - x) * TWO_53 <= Abs(x)
  {
  }

  lemma {:induction false} HalvedError(x: real, y: real)
    requires Abs(y - x * 2.0) * TWO_53 <= Abs(x * 2.0)
    ensures Abs(y / 2.0 - x) * TWO_53 <= Abs(x)
  {
  }

  lemma {:induction false} RoundScaledError(x: real, scale: nat)
    requires TWO_52 <= Abs(x) * Pow2(scale) as real
    ensures Abs(RoundScaled(x, scale) - x) * TWO_53 <= Abs(x)
    decreases scale
  {
    if Abs(x) >= TWO_52 {
      RoundHalfEvenError(x);
    } else {
      DoubledReaches(x, scale);
      RoundScaledError(x * 2.0, scale - 1);
      HalvedError(x, RoundScaled(x * 2.0, scale - 1));
    }
  }

  lemma {:induction false} RoundScaledExact(n: int, scale: nat)
    requires Abs(n as real) <= TWO_53
    ensures RoundScaled(n as real, scale) == n as real
    decreases scale
  {
    if Abs(n as real) < TWO_52 && scale > 0 {
      assert n as real * 2.0 == (2 * n) as real;
      RoundScaledExact(2 * n, scale - 1);
    }
  }

  lemma {:induction false} SixtyDoublings()
    ensures Pow2(60) == 1152921504606846976
  {
    assert Pow2(10) == 1024;
    assert Pow2(20) == 1048576;
    assert Pow2(30) == 1073741824;
    assert Pow2(40) == 1099511627776;
    assert Pow2(50) == 1125899906842624;
  }

  /** Half a paisa needs at most 60 doublings, of the 1074 there are. */
  lemma {:induction false} HalfPaisaReaches(x: real, scale: nat)
    requires 0.005 <= Abs(x) && 60 <= scale
    ensures TWO_52 <= Abs(x) * Pow2(scale) as real
  {
    SixtyDoublings();
    Pow2Grows(60, scale);
    var p := Pow2(scale) as real;
    assert TWO_52 <= 0.005 * p <= Abs(x) * p;
  }

  lemma {:induction false} OneDoubling(x: real, scale: nat)
    requires Abs(x) < TWO_52 && scale >= 1
    ensures RoundScaled(x, scale) == RoundScaled(x * 2.0, scale - 1) / 2.0
  {
  }

  lemma {:induction false} TwoDoublings(x: real, scale: nat)
    requires Abs(x) * 2.0 < TWO_52 && scale >= 2
    ensures RoundScaled(x, scale) == RoundScaled(x * 4.0, scale - 2) / 4.0
  {
    OneDoubling(x, scale);
    OneDoubling(x * 2.0, scale - 1);
  }

  lemma {:induction false} FourDoublings(x: real, scale: nat)
    requires Abs(x) * 8.0 < TWO_52 && scale >= 4
    ensures RoundScaled(x, scale) == RoundScaled(x * 16.0, scale - 4) / 16.0
  {
    TwoDoublings(x, scale);
    TwoDoublings(x * 4.0, scale - 2);
  }

  lemma {:induction false} ThreeDoublings(x: real, scale: nat)
    requires Abs(x) * 4.0 < TWO_52 && scale >= 3
    ensures RoundScaled(x, scale) == RoundScaled(x * 8.0, scale - 3) / 8.0
  {
    TwoDoublings(x, scale);
    OneDoubling(x * 4.0, scale - 2);
  }

  lemma {:induction false} SevenDoublings(x: real, scale: nat)
    requires Abs(x) * 64.0 < TWO_52 && scale >= 7
    ensures RoundScaled(x, scale) == RoundScaled(x * 128.0, scale - 7) / 128.0
  {
    var y := x * 16.0;
    FourDoublings(x, scale);
    ThreeDoublings(y, scale - 4);
    assert y * 8.0 == x * 128.0;
  }

  lemma {:induction false} WithinHalf(x: real, scale: nat)
    requires Abs(x) < TWO_53
    ensures Abs(RoundScaled(x, scale) - x) <= 0.5
    decreases scale
  {
    if Abs(x) < TWO_52 && scale > 0 {
      WithinHalf(x * 2.0, scale - 1);
    }
  }

  lemma {:induction false} SmallStaysSmall(x: real, scale: nat)
    requires Abs(x) < 0.005 && 60 <= scale
    ensures Abs(RoundScaled(x, scale)) < 0.01
  {
    SevenDoublings(x, scale);
    WithinHalf(x * 128.0, scale - 7);
  }

  lemma {:induction false} Binary53Rounds(x: real, scale: nat)
    requires 60 <= scale
    ensures Rounded(x, RoundScaled(x, scale))
  {
    if 0.005 <= Abs(x) <= TWO_53 {
      HalfPaisaReaches(x, scale);
      RoundScaledError(x, scale);
    } else if Abs(x) < 0.005 {
      SmallStaysSmall(x, scale);
    }
    if Whole(x) && Abs(x) <= TWO_53 {
      RoundScaledExact(x.Floor, scale);
    }
  }

  /** The machine's rounding is one of those assumed above. */
  lemma {:induction false} Binary53IsDoubleRounding(scale: nat)
    requires 60 <= scale
    ensures DoubleRounding(Binary53(scale))
  {
    forall x: real ensures Rounded(x, Binary53(scale)(x)) {
      Binary53Rounds(x, scale);
    }
  }

  // ---- the exact bound for the machine's rounding ----

  const IEEE_LIMIT := 3518437208883201 // 100 * 2^45 + 1

  /** Below 2^45 rupees the quotient is off by at most 2^-9. */
  lemma {:induction false} QuotientBelowLimit(q: real, scale: nat)
    requires 60 <= scale && Abs(q) * 128.0 < TWO_52
    ensures Abs(RoundScaled(q, scale) - q) <= 0.5 / 256.0
  {
    SevenDoublings(q, scale);
    OneDoubling(q * 128.0, scale - 7);
    WithinHalf(q * 256.0, scale - 8);
  }

  /** Below 2^52 paise the product is off by at most a quarter. */
  lemma {:induction false} ProductBelowLimit(x: real, scale: nat)
    requires 60 <= scale && Abs(x) < TWO_52
    ensures Abs(RoundScaled(x, scale) - x) <= 0.25
  {
    OneDoubling(x, scale);
    WithinHalf(x * 2.0, scale - 1);
  }

  lemma {:induction false} BelowLimit(paise: int, scale: nat)
    requires 60 <= scale && 0 <= paise < IEEE_LIMIT - 1
    ensures AmountSurvives(Binary53(scale), paise)
  {
    RoundScaledExact(paise, scale);
    var q := paise as real / 100.0;
    QuotientBelowLimit(q, scale);
    ProductBelowLimit(RoundScaled(q, scale) * 100.0, scale);
  }

  /** From there on the quotient takes 7 doublings and the product 1. */
  lemma {:induction false} AtLimit(paise: int, scale: nat)
    requires 60 <= scale && IEEE_LIMIT - 1 <= paise <= IEEE_LIMIT + 1
    ensures ToPaise(Binary53(scale), ToRupees(Binary53(scale), paise)) == paise + if paise > IEEE_LIMIT then 1 else 0
  {
    RoundScaledExact(paise, scale);
    var q := paise as real / 100.0;
    SevenDoublings(q, scale);
    var n := paise - (IEEE_LIMIT - 1);
    var r := (4503599627370496 + (if n == 0 then 0 else if n == 1 then 1 else 3)) as real / 128.0;
    assert RoundScaled(q, scale) == r;
    OneDoubling(r * 100.0, scale);
    assert RoundScaled(r * 200.0, scale - 1) == RoundHalfEven(r * 200.0) as real;
  }

  lemma {:induction false} RoundHalfEvenIsOdd(x: real)
    ensures RoundHalfEven(-x) == -RoundHalfEven(x)
  {
    var n := x.Floor;
    assert (-x).Floor == if x == n as real then -n else -n - 1;
  }

  lemma {:induction false} RoundScaledIsOdd(x: real, scale: nat)
    ensures RoundScaled(-x, scale) == -RoundScaled(x, scale)
    decreases scale
  {
    if Abs(x) < TWO_52 && scale > 0 {
      RoundScaledIsOdd(x * 2.0, scale - 1);
      assert -(x * 2.0) == (-x) * 2.0;
    } else {
      RoundHalfEvenIsOdd(x);
    }
  }

  lemma {:induction false} RupeesAreOdd(paise: int, scale: nat)
    ensures ToRupees(Binary53(scale), -paise) == -ToRupees(Binary53(scale), paise)
  {
    var a := paise as real;
    RoundScaledIsOdd(a, scale);
    var b := RoundScaled(a, scale);
    RoundScaledIsOdd(b / 100.0, scale);
    assert (-paise) as real == -a && (-b) / 100.0 == -(b / 100.0);
  }

  lemma {:induction false} TripIsOdd(paise: int, scale: nat)
    ensures ToPaise(Binary53(scale), ToRupees(Binary53(scale), -paise))
            == -ToPaise(Binary53(scale), ToRupees(Binary53(scale), paise))
  {
    RupeesAreOdd(paise, scale);
    var r := ToRupees(Binary53(scale), paise);
    RoundScaledIsOdd(r * 100.0, scale);
    assert (-r) * 100.0 == -(r * 100.0);
  }

  /** Everything up to a bound survives IEEE doubles if and only if the bound is at most 3518437208883201 paise. */
  lemma {:induction false} Binary53BoundIsExact(scale: nat, bound: int)
    requires 60 <= scale && 0 <= bound
    ensures (forall paise :: -bound <= paise <= bound ==> AmountSurvives(Binary53(scale), paise))
            <==> bound <= IEEE_LIMIT
  {
    if bound <= IEEE_LIMIT {
      forall paise | -bound <= paise <= bound
        ensures AmountSurvives(Binary53(scale), paise)
      {
        var size := if paise < 0 then -paise else paise;
        if size < IEEE_LIMIT - 1 {
          BelowLimit(size, scale);
        } else {
          AtLimit(size, scale);
        }
        TripIsOdd(size, scale);
      }
    } else {
      AtLimit(IEEE_LIMIT + 1, scale);
      assert !AmountSurvives(Binary53(scale), IEEE_LIMIT + 1);
    }
  }

  // ---- the bound for all such roundings ----

  /** A rounding that always errs upwards by the full 2^-53. */
  function Upwards(): real -> real {
    x => if Whole(x) then x else x + x / TWO_53
  }

  lemma {:induction false} NotWhole(x: real, n: int)
    requires n as real < x < n as real + 1.0
    ensures x.Floor == n && !Whole(x)
  {
  }

  /** The bound is exact for such roundings: 2^51 paise can come back as one paisa more. */
  lemma {:induction false} AmountBoundIsExact()
    ensures !(forall fl: real -> real :: DoubleRounding(fl) ==> AmountSurvives(fl, TWO_51))
  {
    var fl := Upwards();
    assert DoubleRounding(fl);
    var a := TWO_51 as real;
    var q := a / 100.0;
    assert Whole(a) && fl(a) == a;
    NotWhole(q, 22517998136852);
    var x := (q + q / TWO_53) * 100.0;
    assert fl(q) * 100.0 == x == a + 0.25;
    NotWhole(x, TWO_51);
    assert fl(x) == x + x / TWO_53 > a + 0.5;
  }
}
