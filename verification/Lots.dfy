// Price arithmetic of the on-chain book: Euclid's algorithm, whole lots at a maker's exact
// price, the crossing test and the price order of one book side.
module Lots {
  type Pos = x: int | 0 < x witness 1

  // ----- Euclid -----------------------------------------------------------------------------

  function Gcd(a: nat, b: nat): nat
    decreases b
  {
    if b == 0 then a else Gcd(b, a % b)
  }

  method GcdI128(a: nat, b: nat) returns (g: nat)
    ensures g == Gcd(a, b)
  {
    var x, y := a, b;
    while y != 0
      invariant Gcd(x, y) == Gcd(a, b)
      decreases y
    {
      x, y := y, x % y;
    }
    g := x;
  }

  ghost predicate Divides(d: int, n: int) {
    exists k :: n == d * k
  }

  lemma {:induction false} Bezout(a: nat, b: nat) returns (x: int, y: int)
    ensures a * x + b * y == Gcd(a, b)
    decreases b
  {
    if b == 0 {
      x, y := 1, 0;
    } else {
      var u, v := Bezout(b, a % b);
      x, y := v, u - (a / b) * v;
      BezoutStep(a, b, a / b, a % b, u, v);
    }
  }

  lemma {:induction false} BezoutStep(a: int, b: int, q: int, r: int, u: int, v: int)
    requires a == b * q + r
    ensures b * u + r * v == a * v + b * (u - q * v)
  {
    assert r * v == a * v - (b * q) * v;
    assert (b * q) * v == b * (q * v);
    assert b * (u - q * v) == b * u - b * (q * v);
  }

  lemma {:induction false} GcdDivides(a: nat, b: nat)
    ensures Divides(Gcd(a, b), a) && Divides(Gcd(a, b), b)
    ensures 0 < a || 0 < b ==> 0 < Gcd(a, b)
    decreases b
  {
    var g := Gcd(a, b);
    if b == 0 {
      assert a == g * 1 && b == g * 0;
    } else {
      GcdDivides(b, a % b);
      var m :| b == g * m;
      var n :| a % b == g * n;
      assert a == b * (a / b) + a % b;
      assert a == g * (m * (a / b) + n) by {
        assert g * m * (a / b) == g * (m * (a / b));
      }
    }
  }

  // Euclid's result is the greatest common divisor in the divisibility order: it divides both
  // arguments, and a number divides both exactly when it divides the result.
  lemma {:induction false} GcdIsGreatest(a: nat, b: nat, d: int)
    ensures Divides(d, a) && Divides(d, b) <==> Divides(d, Gcd(a, b))
    ensures 0 < a || 0 < b ==> 0 < Gcd(a, b)
    ensures (0 < a || 0 < b) && Divides(d, a) && Divides(d, b) ==> d <= Gcd(a, b)
  {
    GcdDivides(a, b);
    if Divides(d, a) && Divides(d, b) {
      CommonDivisorDividesGcd(a, b, d);
    }
    if Divides(d, Gcd(a, b)) {
      DividesTransitive(d, Gcd(a, b), a);
      DividesTransitive(d, Gcd(a, b), b);
    }
  }

  lemma {:induction false} CommonDivisorDividesGcd(a: nat, b: nat, d: int)
    requires Divides(d, a) && Divides(d, b)
    ensures Divides(d, Gcd(a, b))
    ensures 0 < Gcd(a, b) ==> d <= Gcd(a, b)
  {
    var m :| a == d * m;
    var n :| b == d * n;
    var x, y := Bezout(a, b);
    var z := m * x + n * y;
    Distribute(d, m, x, n, y);
    assert Gcd(a, b) == d * z;
    if 0 < d {
      FactorSize(d, z);
    }
  }

  lemma {:induction false} DividesTransitive(d: int, e: int, n: int)
    requires Divides(d, e) && Divides(e, n)
    ensures Divides(d, n)
  {
    var k :| e == d * k;
    var m :| n == e * m;
    assert n == d * (k * m);
  }

  lemma {:induction false} Distribute(d: int, m: int, x: int, n: int, y: int)
    ensures (d * m) * x + (d * n) * y == d * (m * x + n * y)
  {
    assert (d * m) * x == d * (m * x);
    assert (d * n) * y == d * (n * y);
  }

  // ----- Lots -------------------------------------------------------------------------------

  // The order's own lot: the least amount of its offered asset that trades at its exact price.
  function OwnLot(amountIn: Pos, minOut: Pos): (lot: nat)
    ensures 0 < lot <= amountIn
  {
    LotFacts(amountIn, minOut);
    amountIn / Gcd(amountIn, minOut)
  }

  // What one own lot of an order pays for.
  function PriceLot(amountIn: Pos, minOut: Pos): (lot: nat)
    ensures 0 < lot <= minOut
  {
    LotFacts(amountIn, minOut);
    minOut / Gcd(amountIn, minOut)
  }

  // How the size of a product follows the sign of its factor.
  lemma {:induction false} FactorSize(g: int, d: int)
    requires 0 < g
    ensures 1 <= d ==> g <= g * d && d <= g * d
    ensures d <= -1 ==> g * d <= -g
    ensures 2 <= d ==> 2 * g <= g * d
    ensures d == 0 <==> g * d == 0
  {
    if 1 <= d {
      assert 0 <= g * (d - 1) && 0 <= (g - 1) * d;
    } else if d <= -1 {
      assert g * (d + 1) <= 0;
    }
    if 2 <= d {
      assert 0 <= g * (d - 2);
    }
  }

  lemma {:induction false} QuotientExact(n: int, g: int)
    requires 0 < g && Divides(g, n)
    ensures n == g * (n / g)
  {
    var k :| n == g * k;
    assert n == g * (n / g) + n % g && 0 <= n % g < g;
    assert g * (k - n / g) == n % g;
    FactorSize(g, k - n / g);
  }

  lemma {:induction false} LotFacts(amountIn: Pos, minOut: Pos)
    ensures var g := Gcd(amountIn, minOut);
      && 0 < g
      && amountIn == g * (amountIn / g) && minOut == g * (minOut / g)
      && 0 < amountIn / g <= amountIn && 0 < minOut / g <= minOut
  {
    var g := Gcd(amountIn, minOut);
    GcdDivides(amountIn, minOut);
    QuotientExact(amountIn, g);
    QuotientExact(minOut, g);
    FactorSize(g, amountIn / g);
    FactorSize(g, minOut / g);
  }

  // The two lots of an order are coprime.
  lemma {:induction false} LotsAreCoprime(amountIn: Pos, minOut: Pos, d: int)
    requires Divides(d, OwnLot(amountIn, minOut)) && Divides(d, PriceLot(amountIn, minOut))
    ensures d == 1 || d == -1
  {
    var own, price := OwnLot(amountIn, minOut), PriceLot(amountIn, minOut);
    var x, y := LotBezout(amountIn, minOut);
    var m :| own == d * m;
    var n :| price == d * n;
    var z := m * x + n * y;
    Distribute(d, m, x, n, y);
    if 0 < d {
      FactorSize(d, z);
    } else if d < 0 {
      assert -d * -z == d * z;
      FactorSize(-d, -z);
    }
  }

  lemma {:induction false} LotBezout(amountIn: Pos, minOut: Pos) returns (x: int, y: int)
    ensures OwnLot(amountIn, minOut) * x + PriceLot(amountIn, minOut) * y == 1
  {
    var g := Gcd(amountIn, minOut);
    LotFacts(amountIn, minOut);
    x, y := Bezout(amountIn, minOut);
    var own, price := amountIn / g, minOut / g;
    Distribute(g, own, x, price, y);
    FactorSize(g, own * x + price * y);
  }

  // What one fill against a maker moves: `give` leaves the maker's lock, `pay` the taker's.
  datatype Fill = Fill(give: nat, pay: nat)

  function FillOf(amountIn: Pos, minOut: Pos, k: nat): Fill {
    Fill(k * OwnLot(amountIn, minOut), k * PriceLot(amountIn, minOut))
  }

  // A number of whole lots trades at exactly the maker's price ratio.
  lemma {:induction false} FillAtExactPrice(amountIn: Pos, minOut: Pos, k: nat)
    ensures var f := FillOf(amountIn, minOut, k); f.give * minOut == f.pay * amountIn
  {
    var g := Gcd(amountIn, minOut);
    LotFacts(amountIn, minOut);
    var own, price := amountIn / g, minOut / g;
    calc {
      (k * own) * minOut;
      (k * own) * (g * price);
      (k * price) * (g * own);
      (k * price) * amountIn;
    }
  }

  // Whole lots of a fill stay within a balance exactly when their count does.
  lemma {:induction false} LotsWithin(k: nat, lot: nat, balance: nat)
    requires 0 < lot
    ensures k <= balance / lot <==> k * lot <= balance
  {
    assert balance == lot * (balance / lot) + balance % lot;
    if k <= balance / lot {
      assert k * lot <= (balance / lot) * lot;
    } else {
      assert k * lot >= (balance / lot + 1) * lot;
    }
  }

  // min(maker lots, taker lots) is the largest trade at the maker's exact price within both
  // balances: it fits, and any other such trade is a smaller number of the same lots.
  lemma {:induction false} LotsAreTheLargestExactTrade(amountIn: Pos, minOut: Pos, makerHas: nat, takerHas: nat,
      x: nat, y: nat)
    ensures
      var own, price := OwnLot(amountIn, minOut), PriceLot(amountIn, minOut);
      var k := Min(makerHas / own, takerHas / price);
      var f := FillOf(amountIn, minOut, k);
      && f.give <= makerHas && f.pay <= takerHas
      && (x * minOut == y * amountIn && x <= makerHas && y <= takerHas
          <==> exists j: nat :: j <= k && Fill(x, y) == FillOf(amountIn, minOut, j))
  {
    var own, price := OwnLot(amountIn, minOut), PriceLot(amountIn, minOut);
    var k := Min(makerHas / own, takerHas / price);
    LotsWithin(k, own, makerHas);
    LotsWithin(k, price, takerHas);
    if x * minOut == y * amountIn && x <= makerHas && y <= takerHas {
      var j := ExactTradesAreLots(amountIn, minOut, x, y);
      LotsWithin(j, own, makerHas);
      LotsWithin(j, price, takerHas);
      assert j <= k && Fill(x, y) == FillOf(amountIn, minOut, j);
    }
    if j: nat :| j <= k && Fill(x, y) == FillOf(amountIn, minOut, j) {
      FillAtExactPrice(amountIn, minOut, j);
      LotsWithin(j, own, makerHas);
      LotsWithin(j, price, takerHas);
    }
  }

  lemma {:induction false} ExactTradesAreLots(amountIn: Pos, minOut: Pos, x: nat, y: nat) returns (j: nat)
    requires x * minOut == y * amountIn
    ensures Fill(x, y) == FillOf(amountIn, minOut, j)
  {
    var own, price := OwnLot(amountIn, minOut), PriceLot(amountIn, minOut);
    ReducedRatio(amountIn, minOut, x, y);
    var u, v := LotBezout(amountIn, minOut);
    j := CoprimeRatio(own, price, x, y, u, v);
  }

  lemma {:induction false} ReducedRatio(amountIn: Pos, minOut: Pos, x: nat, y: nat)
    requires x * minOut == y * amountIn
    ensures x * PriceLot(amountIn, minOut) == y * OwnLot(amountIn, minOut)
  {
    var g := Gcd(amountIn, minOut);
    LotFacts(amountIn, minOut);
    var own, price := amountIn / g, minOut / g;
    PullOut(x, g, price);
    PullOut(y, g, own);
    CancelFactor(g, x * price, y * own);
  }

  lemma {:induction false} PullOut(x: int, g: int, p: int)
    ensures x * (g * p) == g * (x * p)
  {
  }

  lemma {:induction false} CoprimeRatio(own: nat, price: nat, x: nat, y: nat, u: int, v: int) returns (j: nat)
    requires 0 < own && x * price == y * own && own * u + price * v == 1
    ensures x == j * own && y == j * price
  {
    var z := x * u + y * v;
    assert own * z == x by {
      Distribute(own, x, u, y, v);
      assert (own * x) * u + (own * y) * v == x * (own * u) + (x * price) * v;
      assert x * (own * u) + (x * price) * v == x * (own * u + price * v) by {
        Distribute(x, own, u, price, v);
        assert (x * own) * u == x * (own * u);
      }
    }
    assert own * y == own * (z * price) by {
      assert (own * z) * price == own * (z * price);
    }
    CancelFactor(own, y, z * price);
    FactorSize(own, z);
    j := z;
  }

  lemma {:induction false} CancelFactor(g: int, a: int, b: int)
    requires 0 < g && g * a == g * b
    ensures a == b
  {
    FactorSize(g, a - b);
  }

  // A resting balance keeps its residue modulo the order's lot under every fill.
  lemma {:induction false} FillKeepsResidue(amountIn: Pos, minOut: Pos, remaining: nat, k: nat)
    requires FillOf(amountIn, minOut, k).give <= remaining
    ensures (remaining - FillOf(amountIn, minOut, k).give) % OwnLot(amountIn, minOut)
         == remaining % OwnLot(amountIn, minOut)
  {
    var lot := OwnLot(amountIn, minOut);
    var rest := remaining - k * lot;
    var q := rest / lot;
    assert rest == lot * q + rest % lot;
    assert remaining == lot * (q + k) + rest % lot by {
      assert lot * (q + k) == lot * q + k * lot;
    }
    ResidueUnique(remaining, lot, q + k, rest % lot);
  }

  lemma {:induction false} ResidueUnique(n: int, lot: int, q: int, r: int)
    requires 0 < lot && n == lot * q + r && 0 <= r < lot
    ensures n % lot == r && n / lot == q
  {
    assert n == lot * (n / lot) + n % lot;
    assert lot * (q - n / lot) == n % lot - r;
    FactorSize(lot, q - n / lot);
  }

  function Min(a: nat, b: nat): nat {
    if a < b then a else b
  }

  method ReducedLot(amountIn: Pos, minOut: Pos) returns (lot: nat)
    ensures lot == OwnLot(amountIn, minOut)
  {
    LotFacts(amountIn, minOut);
    var g := GcdI128(amountIn, minOut);
    lot := amountIn / g;
  }

  // Decompose a match into whole lots of the maker's reduced ratio, in base and quote units.
  datatype LotCount = LotCount(kMaker: nat, kTaker: nat, baseLot: nat, quoteLot: nat)

  method ComputeLots(makerIsSell: bool, amountIn: Pos, minOut: Pos, makerHas: nat, takerHas: nat)
    returns (l: LotCount)
    ensures l.kMaker == makerHas / OwnLot(amountIn, minOut)
    ensures l.kTaker == takerHas / PriceLot(amountIn, minOut)
    ensures OwnLot(amountIn, minOut) == (if makerIsSell then l.baseLot else l.quoteLot)
    ensures PriceLot(amountIn, minOut) == (if makerIsSell then l.quoteLot else l.baseLot)
  {
    var g := GcdI128(amountIn, minOut);
    LotFacts(amountIn, minOut);
    var baseLot, quoteLot;
    if makerIsSell {
      baseLot, quoteLot := amountIn / g, minOut / g;
    } else {
      baseLot, quoteLot := minOut / g, amountIn / g;
    }
    var makerLot, takerLot;
    if makerIsSell {
      makerLot, takerLot := baseLot, quoteLot;
    } else {
      makerLot, takerLot := quoteLot, baseLot;
    }
    l := LotCount(makerHas / makerLot, takerHas / takerLot, baseLot, quoteLot);
  }

  // ----- Prices -----------------------------------------------------------------------------

  predicate CrossAmounts(aIn: nat, aOut: nat, bIn: nat, bOut: nat) {
    aOut * bOut <= aIn * bIn
  }

  // An order's limit terms, as the price order sees them.
  datatype Limit = Limit(amountIn: Pos, minOut: Pos)

  const SIDE_BUY := 0
  const SIDE_SELL := 1

  // Strictly ahead in price on a side: the contract's two cross-multiplied tests.
  predicate Better(a: Limit, b: Limit, side: nat) {
    if side == SIDE_SELL then
      a.minOut * b.amountIn < b.minOut * a.amountIn
    else
      a.amountIn * b.minOut > b.amountIn * a.minOut
  }

  // The price of a is at most the price of b: b is not strictly ahead of a.
  predicate NoWorse(a: Limit, b: Limit) {
    a.minOut * b.amountIn <= b.minOut * a.amountIn
  }

  // Both sides use one relation, and it is a strict weak order on positive terms.
  lemma {:induction false} BetterIsAStrictWeakOrder(a: Limit, b: Limit, c: Limit, side: nat)
    ensures Better(a, b, SIDE_BUY) <==> Better(a, b, SIDE_SELL)
    ensures !Better(a, a, side)
    ensures Better(a, b, side) ==> !Better(b, a, side)
    ensures Better(a, b, side) && !Better(c, b, side) ==> Better(a, c, side)
    ensures !Better(b, a, side) && Better(b, c, side) ==> Better(a, c, side)
    ensures !Better(b, a, side) && !Better(c, b, side) ==> !Better(c, a, side)
  {
    if NoWorse(a, b) && NoWorse(b, c) {
      NoWorseTransitive(a, b, c);
    }
  }

  lemma {:induction false} NoWorseTransitive(a: Limit, b: Limit, c: Limit)
    requires NoWorse(a, b) && NoWorse(b, c)
    ensures NoWorse(a, c)
    ensures !NoWorse(b, a) || !NoWorse(c, b) ==> !NoWorse(c, a)
  {
    var ab, ba := a.minOut * b.amountIn, b.minOut * a.amountIn;
    var bc, cb := b.minOut * c.amountIn, c.minOut * b.amountIn;
    var ac, ca := a.minOut * c.amountIn, c.minOut * a.amountIn;
    // Multiply the two comparisons by c's and a's amounts, and cancel b's amount.
    assert b.amountIn * ac == ab * c.amountIn;
    assert ba * c.amountIn == bc * a.amountIn;
    assert b.amountIn * ca == cb * a.amountIn;
    MulOrder(ab, ba, c.amountIn);
    MulOrder(bc, cb, a.amountIn);
    MulOrder(ca, ac, b.amountIn);
    MulOrder(ac, ca, b.amountIn);
  }

  lemma {:induction false} MulOrder(x: int, y: int, g: int)
    requires 0 < g
    ensures x <= y <==> x * g <= y * g
    ensures x < y <==> x * g < y * g
    ensures g * x == x * g && g * y == y * g
  {
    FactorSize(g, y - x);
  }

  // On a sorted side, nothing behind a maker that does not cross crosses either.
  lemma {:induction false} BehindANonCrossing(front: Limit, back: Limit, takerIn: nat, takerOut: nat, side: nat)
    requires !Better(back, front, side)
    requires !CrossAmounts(front.amountIn, front.minOut, takerIn, takerOut)
    ensures !CrossAmounts(back.amountIn, back.minOut, takerIn, takerOut)
  {
    var f, b := front, back;
    calc {
      f.amountIn * (b.amountIn * takerIn);
      (f.amountIn * takerIn) * b.amountIn;
    < { MulOrder(f.amountIn * takerIn, f.minOut * takerOut, b.amountIn); }
      (f.minOut * takerOut) * b.amountIn;
      (f.minOut * b.amountIn) * takerOut;
    <= { MulLe(f.minOut * b.amountIn, b.minOut * f.amountIn, takerOut); }
      (b.minOut * f.amountIn) * takerOut;
      f.amountIn * (b.minOut * takerOut);
    }
    MulOrder(b.amountIn * takerIn, b.minOut * takerOut, f.amountIn);
  }

  lemma {:induction false} MulLe(x: int, y: int, g: nat)
    requires x <= y
    ensures x * g <= y * g
  {
    if 0 < g {
      MulOrder(x, y, g);
    }
  }
}
