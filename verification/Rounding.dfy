/** Rounding to two decimals, a tie going to the even hundredth. */
module Rounding {

  /** The nearest whole number. */
  function Nearest(x: real): int {
    var f := x.Floor;
    var rest := x - f as real;
    if rest < 0.5 || (rest == 0.5 && f % 2 == 0) then f else f + 1
  }

  function Round2(x: real): real {
    Nearest(x * 100.0) as real / 100.0
  }

  /** The same to one decimal. */
  function Round1(x: real): real {
    Nearest(x * 10.0) as real / 10.0
  }

  lemma NearestKeepsOrder(x: real, y: real)
    requires x <= y
    ensures Nearest(x) <= Nearest(y)
  {
  }

  lemma RoundingKeepsOrder(x: real, y: real)
    requires x <= y
    ensures Round1(x) <= Round1(y)
  {
    NearestKeepsOrder(x * 10.0, y * 10.0);
  }

  lemma WholeNumbersStay(n: int)
    ensures Round1(n as real) == n as real
  {
    assert (n as real * 10.0).Floor == n * 10;
  }

  predicate Cents(x: real) {
    (x * 100.0).Floor as real == x * 100.0
  }

  function Abs(x: real): real {
    if x < 0.0 then -x else x
  }

  lemma NearestIsClose(x: real)
    ensures -0.5 <= Nearest(x) as real - x <= 0.5
  {
  }

  /** A tie goes to the even neighbour. */
  lemma TieGoesToEven(n: int)
    ensures Nearest(n as real + 0.5) % 2 == 0
  {
    assert (n as real + 0.5).Floor == n;
  }

  /** Rounding to one decimal moves a value by at most half a tenth, to a whole tenth. */
  lemma Round1IsNearest(x: real)
    ensures -0.05 <= Round1(x) - x <= 0.05 && (Round1(x) * 10.0).Floor as real == Round1(x) * 10.0
  {
    NearestIsClose(x * 10.0);
    WholeIsTenths(Nearest(x * 10.0));
    Scaled1(Nearest(x * 10.0) as real, x);
  }

  lemma WholeIsTenths(c: int)
    ensures (c as real / 10.0 * 10.0).Floor as real == c as real / 10.0 * 10.0
  {
    assert c as real / 10.0 * 10.0 == c as real;
  }

  lemma Scaled1(c: real, x: real)
    requires -0.5 <= c - x * 10.0 <= 0.5
    ensures -0.05 <= c / 10.0 - x <= 0.05
  {
  }

  /** Rounding moves a value by at most half a hundredth, to a whole hundredth, */
  lemma RoundsToNearest(x: real)
    ensures Abs(Round2(x) - x) <= 0.005 && Cents(Round2(x))
  {
    NearestIsClose(x * 100.0);
    WholeIsCents(Nearest(x * 100.0));
    Scaled(Nearest(x * 100.0) as real, x);
  }

  lemma WholeIsCents(c: int)
    ensures Cents(c as real / 100.0)
  {
    assert c as real / 100.0 * 100.0 == c as real;
  }

  lemma Scaled(c: real, x: real)
    requires -0.5 <= c - x * 100.0 <= 0.5
    ensures Abs(c / 100.0 - x) <= 0.005
  {
  }

  /** and no whole hundredth is nearer. */
  lemma NoneIsNearer(x: real, y: real)
    requires Cents(y)
    ensures Abs(Round2(x) - x) <= Abs(y - x)
  {
    NearestOfAll(x * 100.0, (y * 100.0).Floor);
  }

  lemma NearestOfAll(x: real, k: int)
    ensures Abs(Nearest(x) as real - x) <= Abs(k as real - x)
  {
    if k <= x.Floor {
      assert k as real <= x.Floor as real;
    } else {
      assert k as real >= x.Floor as real + 1.0;
    }
  }

  /** A value already in whole hundredths is left alone. */
  lemma CentsStay(x: real)
    requires Cents(x)
    ensures Round2(x) == x
  {
  }

  // ----- three decimals -----

  function Round3(x: real): real {
    Nearest(x * 1000.0) as real / 1000.0
  }

  /** What is left of a value when the digits after the third are dropped. */
  function Cut3(x: real): real {
    (x * 1000.0).Floor as real / 1000.0
  }

  predicate Thousandths(x: real) {
    (x * 1000.0).Floor as real == x * 1000.0
  }

  lemma WholeIsThousandths(c: int)
    ensures Thousandths(c as real / 1000.0)
  {
    assert c as real / 1000.0 * 1000.0 == c as real;
  }

  lemma Scaled3(c: real, x: real)
    requires -0.5 <= c - x * 1000.0 <= 0.5
    ensures x - 0.0005 <= c / 1000.0 <= x + 0.0005
  {
  }

  lemma Round3IsClose(x: real)
    ensures x - 0.0005 <= Round3(x) <= x + 0.0005 && Thousandths(Round3(x))
  {
    NearestIsClose(x * 1000.0);
    WholeIsThousandths(Nearest(x * 1000.0));
    Scaled3(Nearest(x * 1000.0) as real, x);
  }

  lemma Round3KeepsOrder(x: real, y: real)
    requires x <= y
    ensures Round3(x) <= Round3(y)
  {
    NearestKeepsOrder(x * 1000.0, y * 1000.0);
  }

  lemma ThousandthsStay(x: real)
    requires Thousandths(x)
    ensures Round3(x) == x && Cut3(x) == x
  {
  }

  lemma ThousandthsAdd(x: real, y: real)
    requires Thousandths(x) && Thousandths(y)
    ensures Thousandths(x + y)
  {
    assert (x + y) * 1000.0 == ((x * 1000.0).Floor + (y * 1000.0).Floor) as real;
  }

  lemma Cut3IsBelow(x: real)
    ensures Thousandths(Cut3(x)) && Cut3(x) <= x && Cut3(x) <= Round3(x)
    ensures x >= 0.0 ==> Cut3(x) >= 0.0
  {
    WholeIsThousandths((x * 1000.0).Floor);
  }

  lemma Cut3KeepsOrder(x: real, y: real)
    requires x <= y
    ensures Cut3(x) <= Cut3(y)
  {
    assert (x * 1000.0).Floor <= (y * 1000.0).Floor;
  }
}
