/**
  Charges and commission shares (crates/keycompute-billing/src/calculator.rs and
  crates/keycompute-distribution/src/calculator.rs).

  Amounts are exact reals; every stored amount is rounded to ten decimals with
  ties to even.  One unit is 10^-10 of the currency.
 */
module Money {
  import opened Common

  const UNITS: real := 10000000000.0

  function Abs(x: real): real {
    if x < 0.0 then -x else x
  }

  /** Round to the nearest integer, ties to even. */
  function RoundHalfEven(x: real): int {
    var floor := x.Floor;
    var rest := x - floor as real;
    if rest < 0.5 || (rest == 0.5 && floor % 2 == 0) then floor else floor + 1
  }

  /** The independent reading of half-even rounding. */
  predicate NearestEven(x: real, n: int) {
    && Abs(x - n as real) <= 0.5
    && (Abs(x - n as real) == 0.5 ==> n % 2 == 0)
  }

  function Round10(x: real): real {
    RoundHalfEven(x * UNITS) as real / UNITS
  }

  lemma RoundingIsNearestEven(x: real, n: int)
    ensures RoundHalfEven(x) == n <==> NearestEven(x, n)
  {
    var f := x.Floor;
    assert f as real <= x < f as real + 1.0;
    if NearestEven(x, n) {
      assert -0.5 <= x - n as real <= 0.5;
      assert f == n || f == n - 1 by {
        assert n as real - 0.5 <= x <= n as real + 0.5;
        assert n - 1 <= f <= n;
      }
    }
  }

  lemma RoundingIsMonotone(x: real, y: real)
    requires x <= y
    ensures RoundHalfEven(x) <= RoundHalfEven(y)
  {
    assert x.Floor <= y.Floor;
    if x.Floor == y.Floor {
    } else {
      assert RoundHalfEven(x) <= x.Floor + 1 <= y.Floor <= RoundHalfEven(y);
    }
  }

  lemma Round10Error(x: real)
    ensures Abs(Round10(x) - x) * UNITS <= 0.5
  {
    var n := RoundHalfEven(x * UNITS);
    RoundingIsNearestEven(x * UNITS, n);
    assert (Round10(x) - x) * UNITS == n as real - x * UNITS;
  }

  lemma Round10Monotone(x: real, y: real)
    requires x <= y
    ensures Round10(x) <= Round10(y)
  {
    RoundingIsMonotone(x * UNITS, y * UNITS);
  }

  // ---- Charges -------------------------------------------------------------

  datatype Breakdown = Breakdown(input: real, output: real, total: real)

  /** The unrounded price of one line. */
  function ExactLine(tokens: nat, pricePer1k: real): real {
    tokens as real / 1000.0 * pricePer1k
  }

  function CalculateBreakdown(inputTokens: nat, outputTokens: nat, inputPrice: real, outputPrice: real): Breakdown {
    var input := Round10(ExactLine(inputTokens, inputPrice));
    var output := Round10(ExactLine(outputTokens, outputPrice));
    Breakdown(input, output, input + output)
  }

  function CalculateAmount(inputTokens: nat, outputTokens: nat, inputPrice: real, outputPrice: real): real {
    CalculateBreakdown(inputTokens, outputTokens, inputPrice, outputPrice).total
  }

  /** The price is that of a thousand tokens, and tokens cost the same whether counted together or apart. */
  lemma PriceIsPerThousand(t: nat, t': nat, price: real)
    ensures ExactLine(1000, price) == price && ExactLine(0, price) == 0.0
    ensures ExactLine(t + t', price) == ExactLine(t, price) + ExactLine(t', price)
  {
    assert (t + t') as real / 1000.0 == t as real / 1000.0 + t' as real / 1000.0;
    Distribute(t as real / 1000.0, t' as real / 1000.0, price);
  }

  lemma Distribute(x: real, y: real, z: real)
    ensures (x + y) * z == x * z + y * z
  {
  }

  /** The stored amount is the exact one in whole units, to the nearest and ties to even. */
  predicate StoredAs(exact: real, amount: real) {
    Aligned(amount) && NearestEven(exact * UNITS, (amount * UNITS).Floor)
  }

  /** Exactly one stored amount belongs to an exact one. */
  lemma StoredOnce(exact: real, amount: real)
    ensures StoredAs(exact, amount) <==> amount == Round10(exact)
  {
    var n := RoundHalfEven(exact * UNITS);
    RoundingIsNearestEven(exact * UNITS, n);
    assert Round10(exact) * UNITS == n as real;
    if StoredAs(exact, amount) {
      RoundingIsNearestEven(exact * UNITS, (amount * UNITS).Floor);
      assert amount == n as real / UNITS;
    }
  }

  /** Each line of a charge is its own exact price as stored, and the total is their sum. */
  lemma BreakdownIsDue(i: nat, o: nat, pi: real, po: real)
    ensures var b := CalculateBreakdown(i, o, pi, po);
            && StoredAs(i as real / 1000.0 * pi, b.input) && StoredAs(o as real / 1000.0 * po, b.output)
            && b.total == b.input + b.output == CalculateAmount(i, o, pi, po)
  {
    StoredOnce(ExactLine(i, pi), Round10(ExactLine(i, pi)));
    StoredOnce(ExactLine(o, po), Round10(ExactLine(o, po)));
  }

  /** A stored amount is a whole number of units. */
  predicate Aligned(x: real) {
    x * UNITS == (x * UNITS).Floor as real
  }

  lemma Round10IsAligned(x: real)
    ensures Aligned(Round10(x))
    ensures Aligned(x) ==> Round10(x) == x
  {
    var n := RoundHalfEven(x * UNITS);
    assert Round10(x) * UNITS == n as real;
    if Aligned(x) {
      assert x == n as real / UNITS;
    }
  }

  lemma SumIsAligned(x: real, y: real)
    requires Aligned(x) && Aligned(y)
    ensures Aligned(x + y)
  {
    assert (x + y) * UNITS == ((x * UNITS).Floor + (y * UNITS).Floor) as real;
  }

  lemma LinesWithinOneUnit(x: real, y: real)
    ensures Aligned(Round10(x) + Round10(y))
    ensures Abs(Round10(x) + Round10(y) - (x + y)) * UNITS <= 1.0
  {
    Round10Error(x);
    Round10Error(y);
    Round10IsAligned(x);
    Round10IsAligned(y);
    SumIsAligned(Round10(x), Round10(y));
  }

  /** The charge is on the ten-decimal grid and within one unit of the exact price. */
  lemma ChargeWithinOneUnit(i: nat, o: nat, pi: real, po: real)
    ensures Aligned(CalculateAmount(i, o, pi, po))
    ensures Abs(CalculateAmount(i, o, pi, po) - (ExactLine(i, pi) + ExactLine(o, po))) * UNITS <= 1.0
  {
    LinesWithinOneUnit(ExactLine(i, pi), ExactLine(o, po));
  }

  /** The bound is attained: two half-unit lines are both rounded away. */
  lemma ChargeBoundIsTight()
    ensures (ExactLine(1, 0.00000005) + ExactLine(1, 0.00000005)) * UNITS == 1.0
    ensures CalculateAmount(1, 1, 0.00000005, 0.00000005) == 0.0
  {
    RoundingIsNearestEven(ExactLine(1, 0.00000005) * UNITS, 0);
  }

  lemma LineIsMonotone(t: nat, t': nat, p: real, p': real)
    requires t <= t' && 0.0 <= p <= p'
    ensures 0.0 <= ExactLine(t, p) <= ExactLine(t', p')
  {
    var x, x' := t as real / 1000.0, t' as real / 1000.0;
    assert 0.0 <= x <= x';
    assert 0.0 <= x * p;
    assert x * p <= x * p' by { assert x * (p' - p) >= 0.0; }
    assert x * p' <= x' * p' by { assert (x' - x) * p' >= 0.0; }
  }

  /** More tokens or higher prices never lower the charge, which is never negative. */
  lemma ChargeIsMonotone(i: nat, i': nat, o: nat, o': nat, pi: real, pi': real, po: real, po': real)
    requires i <= i' && o <= o' && 0.0 <= pi <= pi' && 0.0 <= po <= po'
    ensures 0.0 <= CalculateAmount(i, o, pi, po) <= CalculateAmount(i', o', pi', po')
  {
    LineIsMonotone(i, i', pi, pi');
    LineIsMonotone(o, o', po, po');
    Round10Monotone(ExactLine(i, pi), ExactLine(i', pi'));
    Round10Monotone(ExactLine(o, po), ExactLine(o', po'));
    Round10Monotone(0.0, ExactLine(i, pi));
    Round10Monotone(0.0, ExactLine(o, po));
    assert Round10(0.0) == 0.0;
  }

  /** Usage of one billed request. */
  datatype Usage = Usage(input: nat, output: nat, inputPrice: real, outputPrice: real)

  function Charged(us: seq<Usage>): real {
    if us == [] then 0.0
    else
      var u := us[|us| - 1];
      Charged(us[..|us| - 1]) + CalculateAmount(u.input, u.output, u.inputPrice, u.outputPrice)
  }

  function Exact(us: seq<Usage>): real {
    if us == [] then 0.0
    else
      var u := us[|us| - 1];
      Exact(us[..|us| - 1]) + ExactLine(u.input, u.inputPrice) + ExactLine(u.output, u.outputPrice)
  }

  /** Over a whole ledger the rounding drift is at most one unit per request. */
  lemma {:induction false} LedgerDrift(us: seq<Usage>)
    ensures Abs(Charged(us) - Exact(us)) * UNITS <= |us| as real
  {
    if us != [] {
      var u := us[|us| - 1];
      LedgerDrift(us[..|us| - 1]);
      ChargeWithinOneUnit(u.input, u.output, u.inputPrice, u.outputPrice);
      var d := Charged(us[..|us| - 1]) - Exact(us[..|us| - 1]);
      var e := CalculateAmount(u.input, u.output, u.inputPrice, u.outputPrice)
               - (ExactLine(u.input, u.inputPrice) + ExactLine(u.output, u.outputPrice));
      assert Charged(us) - Exact(us) == d + e;
      assert Abs(d + e) <= Abs(d) + Abs(e);
    }
  }

  // ---- Shares --------------------------------------------------------------

  datatype Level = Level1 | Level2

  datatype Share = Share(beneficiary: nat, amount: real, ratio: real, level: Level)

  /** The unrounded share of a bill. */
  function Portion(bill: real, ratio: real): real {
    bill * ratio
  }

  function CalculateShares(bill: real, ratio1: real, ratio2: real, first: nat, second: Option<nat>): seq<Share> {
    [Share(first, Round10(Portion(bill, ratio1)), ratio1, Level1)]
    + if second.Some? then [Share(second.value, Round10(Portion(bill, ratio2)), ratio2, Level2)] else []
  }

  function TotalShare(shares: seq<Share>): real {
    if shares == [] then 0.0 else shares[0].amount + TotalShare(shares[1..])
  }

  /** The share of one level: who gets it, at which rate, and the part of the bill as stored. */
  predicate Due(s: Share, level: Level, beneficiary: nat, bill: real, ratio: real) {
    s.level == level && s.beneficiary == beneficiary && s.ratio == ratio && StoredAs(bill * ratio, s.amount)
  }

  /** The first beneficiary is paid the first rate, the second, if there is one, the second rate, and nobody else. */
  lemma SharesAreDue(bill: real, ratio1: real, ratio2: real, first: nat, second: Option<nat>)
    ensures var s := CalculateShares(bill, ratio1, ratio2, first, second);
            && |s| == (if second.Some? then 2 else 1) && Due(s[0], Level1, first, bill, ratio1)
            && (second.Some? ==> Due(s[1], Level2, second.value, bill, ratio2))
  {
    StoredOnce(bill * ratio1, Round10(Portion(bill, ratio1)));
    StoredOnce(bill * ratio2, Round10(Portion(bill, ratio2)));
  }

  /** What one user gets of a list of shares. */
  function PaidTo(shares: seq<Share>, user: nat): real {
    if shares == [] then 0.0
    else (if shares[0].beneficiary == user then shares[0].amount else 0.0) + PaidTo(shares[1..], user)
  }

  /** How many of the two levels a user is at, and what their rates come to exactly. */
  function LevelsOf(first: nat, second: Option<nat>, user: nat): nat {
    (if user == first then 1 else 0) + (if second == Some(user) then 1 else 0)
  }

  function Entitled(bill: real, ratio1: real, ratio2: real, first: nat, second: Option<nat>, user: nat): real {
    (if user == first then Portion(bill, ratio1) else 0.0) + (if second == Some(user) then Portion(bill, ratio2) else 0.0)
  }

  /** The user gets that, within half a unit for each level, and nothing if they are at none. */
  predicate PaidTheirRates(shares: seq<Share>, bill: real, ratio1: real, ratio2: real, first: nat, second: Option<nat>, user: nat) {
    Abs(PaidTo(shares, user) - Entitled(bill, ratio1, ratio2, first, second, user)) * UNITS
    <= 0.5 * LevelsOf(first, second, user) as real
  }

  lemma EveryUserIsPaidTheirRates(bill: real, ratio1: real, ratio2: real, first: nat, second: Option<nat>, user: nat)
    ensures PaidTheirRates(CalculateShares(bill, ratio1, ratio2, first, second), bill, ratio1, ratio2, first, second, user)
  {
    var s := CalculateShares(bill, ratio1, ratio2, first, second);
    PaidByTwo(s, user);
    Round10Error(Portion(bill, ratio1));
    Round10Error(Portion(bill, ratio2));
  }

  lemma PaidByTwo(s: seq<Share>, user: nat)
    requires 1 <= |s| <= 2
    ensures PaidTo(s, user) == (if s[0].beneficiary == user then s[0].amount else 0.0)
                               + (if |s| == 2 && s[1].beneficiary == user then s[1].amount else 0.0)
  {
    if |s| == 2 {
      assert s[1..] == [s[1]] && PaidTo(s[1..][1..], user) == 0.0;
    } else {
      assert s[1..] == [];
    }
  }

  lemma TotalOfTwo(bill: real, r1: real, r2: real, first: nat, second: Option<nat>)
    ensures TotalShare(CalculateShares(bill, r1, r2, first, second))
         == Round10(Portion(bill, r1)) + (if second.Some? then Round10(Portion(bill, r2)) else 0.0)
  {
    var s := CalculateShares(bill, r1, r2, first, second);
    assert TotalShare(s[1..]) == if second.Some? then Round10(Portion(bill, r2)) else 0.0 by {
      if second.Some? {
        assert s[1..] == [s[1]];
        assert TotalShare(s[1..]) == s[1].amount + TotalShare(s[1..][1..]);
      }
    }
  }

  predicate RoundsUp(x: real) {
    var rest := x - x.Floor as real;
    rest > 0.5 || (rest == 0.5 && x.Floor % 2 == 1)
  }

  /**
    Two parts that add up to n or to at most one unit more pass n when rounded: both
    have to round up if their floors leave a unit of n over, one if they leave none.
   */
  predicate PassesInLastUnit(n: int, a: real, b: real) {
    && n as real <= a + b <= n as real + 1.0
    && (if a.Floor + b.Floor < n then RoundsUp(a) && RoundsUp(b)
        else RoundsUp(a) || RoundsUp(b) || a.Floor + b.Floor > n)
  }

  /** Rounded parts pass n when the exact ones do by more than a unit, and else as above. */
  lemma TwoPartsOvershoot(n: int, a: real, b: real)
    requires 0.0 <= a && 0.0 <= b
    ensures RoundHalfEven(a) + RoundHalfEven(b) > n <==> a + b > n as real + 1.0 || PassesInLastUnit(n, a, b)
    ensures a + b <= n as real ==> RoundHalfEven(a) + RoundHalfEven(b) <= n + 1
    ensures a + b == n as real ==>
              (PassesInLastUnit(n, a, b) <==> a - a.Floor as real == 0.5 && a.Floor % 2 == 1 && b.Floor % 2 == 1)
  {
    var fa, fb := a.Floor, b.Floor;
    var ra, rb := a - fa as real, b - fb as real;
    assert 0.0 <= ra < 1.0 && 0.0 <= rb < 1.0;
    assert RoundHalfEven(a) == fa + (if RoundsUp(a) then 1 else 0);
    assert RoundHalfEven(b) == fb + (if RoundsUp(b) then 1 else 0);
    if a + b > n as real + 1.0 {
      RoundingIsNearestEven(a, RoundHalfEven(a));
      RoundingIsNearestEven(b, RoundHalfEven(b));
      assert (RoundHalfEven(a) + RoundHalfEven(b)) as real > n as real;
    } else if a + b < n as real {
      assert (fa + fb) as real < n as real;
      assert fa + fb == n - 1 ==> ra + rb < 1.0;
    } else {
      assert n - 2 < fa + fb <= n + 1 by {
        assert n as real - 2.0 < (fa + fb) as real <= n as real + 1.0;
      }
      assert a + b == n as real && fa + fb == n ==> ra == 0.0 && rb == 0.0;
    }
  }

  /** The two parts of the bill, in units, are both ties that half-even rounding moves up. */
  predicate DoubleTie(bill: real, part1: real, part2: real) {
    var a, b := part1 * UNITS, part2 * UNITS;
    part1 + part2 == bill && a - a.Floor as real == 0.5 && a.Floor % 2 == 1 && b.Floor % 2 == 1
  }

  /** The parts of a stored bill pass it by more than a unit, or in the last unit. */
  predicate Overpays(bill: real, part1: real, part2: real) {
    || (part1 + part2 - bill) * UNITS > 1.0
    || PassesInLastUnit((bill * UNITS).Floor, part1 * UNITS, part2 * UNITS)
  }

  lemma PartsAgainstBill(bill: real, part1: real, part2: real)
    requires Aligned(bill) && 0.0 <= part1 && 0.0 <= part2
    ensures var total := Round10(part1) + Round10(part2);
            && (total > bill <==> Overpays(bill, part1, part2))
            && (part1 + part2 < bill ==> total <= bill)
            && (part1 + part2 == bill ==> (total > bill <==> DoubleTie(bill, part1, part2)))
            && (part1 + part2 <= bill && total > bill ==> (total - bill) * UNITS == 1.0)
  {
    var n := (bill * UNITS).Floor;
    var a, b := part1 * UNITS, part2 * UNITS;
    assert bill * UNITS == n as real;
    assert (part1 + part2 - bill) * UNITS == a + b - n as real;
    TwoPartsOvershoot(n, a, b);
    var m := RoundHalfEven(a) + RoundHalfEven(b);
    assert (Round10(part1) + Round10(part2)) * UNITS == m as real;
  }

  lemma ProductIsNonnegative(x: real, y: real)
    requires 0.0 <= x && 0.0 <= y
    ensures 0.0 <= x * y
    ensures 0.0 < x && 0.0 < y ==> 0.0 < x * y
  {
  }

  lemma PartsWithinWhole(bill: real, r1: real, r2: real)
    requires 0.0 <= bill && 0.0 <= r1 && 0.0 <= r2
    ensures 0.0 <= Portion(bill, r1) && 0.0 <= Portion(bill, r2)
    ensures Portion(bill, r1) + Portion(bill, r2) == Portion(bill, r1 + r2)
    ensures r1 + r2 <= 1.0 ==> Portion(bill, r1 + r2) <= bill
    ensures 0.0 < bill && r1 + r2 < 1.0 ==> Portion(bill, r1 + r2) < bill
    ensures r1 + r2 <= 0.5 ==> Portion(bill, r1 + r2) <= bill / 2.0
  {
    PortionIsNonnegative(bill, r1);
    PortionIsNonnegative(bill, r2);
    PortionsAdd(bill, r1, r2);
    WholeAndHalf(bill);
    if r1 + r2 <= 1.0 {
      PortionGrows(bill, r1 + r2, 1.0);
    }
    if r1 + r2 <= 0.5 {
      PortionGrows(bill, r1 + r2, 0.5);
    }
  }

  lemma PortionIsNonnegative(bill: real, r: real)
    requires 0.0 <= bill && 0.0 <= r
    ensures 0.0 <= Portion(bill, r)
  {
    ProductIsNonnegative(bill, r);
  }

  lemma PortionsAdd(bill: real, r1: real, r2: real)
    ensures Portion(bill, r1) + Portion(bill, r2) == Portion(bill, r1 + r2)
  {
  }

  lemma WholeAndHalf(bill: real)
    ensures Portion(bill, 1.0) == bill && Portion(bill, 0.5) == bill / 2.0
  {
  }

  lemma PortionGrows(bill: real, r: real, q: real)
    requires 0.0 <= bill && r <= q
    ensures Portion(bill, r) <= Portion(bill, q)
    ensures 0.0 < bill && r < q ==> Portion(bill, r) < Portion(bill, q)
  {
    ProductIsNonnegative(bill, q - r);
    PortionsAdd(bill, r, q - r);
    assert r + (q - r) == q;
  }

  lemma WholeIsAtMostBill(bill: real, ratio: real)
    requires 0.0 <= bill && 0.0 <= ratio <= 1.0
    ensures 0.0 <= Portion(bill, ratio) <= bill
  {
    PortionIsNonnegative(bill, ratio);
    PortionGrows(bill, ratio, 1.0);
    WholeAndHalf(bill);
  }

  /**
    For every stored bill and any two rates, exactly when the shares exceed the bill:
    never for a single share; below one in sum never, at one on a double tie and then by
    one unit, above one as soon as the excess is more than a unit and, up to there, by
    how the parts round.
   */
  lemma SharesAgainstBill(bill: real, r1: real, r2: real, first: nat, second: Option<nat>)
    requires Aligned(bill) && 0.0 <= bill && 0.0 <= r1 <= 1.0 && 0.0 <= r2 <= 1.0
    ensures var total := TotalShare(CalculateShares(bill, r1, r2, first, second));
            var part1, part2 := Portion(bill, r1), Portion(bill, r2);
            && (total > bill <==> second.Some? && Overpays(bill, part1, part2))
            && (r1 + r2 < 1.0 ==> total <= bill)
            && (r1 + r2 == 1.0 ==> (total > bill <==> second.Some? && DoubleTie(bill, part1, part2)))
            && (r1 + r2 <= 1.0 && total > bill ==> (total - bill) * UNITS == 1.0)
            && (second.Some? && (Portion(bill, r1 + r2) - bill) * UNITS > 1.0 ==> total > bill)
  {
    TotalOfTwo(bill, r1, r2, first, second);
    PartsWithinWhole(bill, r1, r2);
    WholeIsAtMostBill(bill, r1);
    OnePartFits(bill, Portion(bill, r1));
    PartsAgainstBill(bill, Portion(bill, r1), Portion(bill, r2));
    if r1 + r2 < 1.0 && bill == 0.0 {
      StrictPartsFit(bill, Portion(bill, r1), Portion(bill, r2));
    }
  }

  lemma OnePartFits(bill: real, part: real)
    requires Aligned(bill) && part <= bill
    ensures Round10(part) <= bill
  {
    Round10Monotone(part, bill);
    Round10IsAligned(bill);
  }

  /** For every bill, stored or not, ratios that sum to at most one pay out at most one unit too much. */
  lemma SharesWithinOneUnit(bill: real, r1: real, r2: real, first: nat, second: Option<nat>)
    requires 0.0 <= bill && 0.0 <= r1 && 0.0 <= r2 && r1 + r2 <= 1.0
    ensures (TotalShare(CalculateShares(bill, r1, r2, first, second)) - bill) * UNITS <= 1.0
  {
    TotalOfTwo(bill, r1, r2, first, second);
    PartsWithinWhole(bill, r1, r2);
    RoundedPartsFit(bill, Portion(bill, r1), Portion(bill, r2));
  }

  lemma RoundedPartsFit(bill: real, part1: real, part2: real)
    requires 0.0 <= part1 && 0.0 <= part2 && part1 + part2 <= bill
    ensures (Round10(part1) + Round10(part2) - bill) * UNITS <= 1.0
    ensures (Round10(part1) - bill) * UNITS <= 1.0
  {
    Round10Error(part1);
    Round10Error(part2);
  }

  /** Ratios that sum to less than one never pay out more than a stored bill. */
  lemma SharesNeverExceedBill(bill: real, r1: real, r2: real, first: nat, second: Option<nat>)
    requires Aligned(bill) && 0.0 <= bill && 0.0 <= r1 && 0.0 <= r2 && r1 + r2 < 1.0
    ensures TotalShare(CalculateShares(bill, r1, r2, first, second)) <= bill
  {
    TotalOfTwo(bill, r1, r2, first, second);
    PartsWithinWhole(bill, r1, r2);
    StrictPartsFit(bill, Portion(bill, r1), Portion(bill, r2));
  }

  lemma StrictPartsFit(bill: real, part1: real, part2: real)
    requires Aligned(bill) && 0.0 <= part1 && 0.0 <= part2
    requires part1 + part2 < bill || part1 + part2 == bill == 0.0
    ensures Round10(part1) + Round10(part2) <= bill && Round10(part1) <= bill
  {
    PartsAgainstBill(bill, part1, part2);
    Round10Monotone(part1, bill);
    Round10IsAligned(bill);
  }

  /** With ratios up to one half the bound holds for every bill, stored or not. */
  lemma HalfRatiosNeverExceedBill(bill: real, r1: real, r2: real, first: nat, second: Option<nat>)
    requires 0.0 <= bill && 0.0 <= r1 && 0.0 <= r2 && r1 + r2 <= 0.5
    ensures TotalShare(CalculateShares(bill, r1, r2, first, second)) <= bill
  {
    TotalOfTwo(bill, r1, r2, first, second);
    PartsWithinWhole(bill, r1, r2);
    SmallPartsFit(bill, Portion(bill, r1), Portion(bill, r2));
  }

  lemma SmallPartsFit(bill: real, part1: real, part2: real)
    requires 0.0 <= part1 && 0.0 <= part2 && part1 + part2 <= bill / 2.0
    ensures 0.0 <= Round10(part2) && Round10(part1) + Round10(part2) <= bill
  {
    HalfPartsFit(bill * UNITS, part1 * UNITS, part2 * UNITS);
    assert Round10(part1) * UNITS == RoundHalfEven(part1 * UNITS) as real;
    assert Round10(part2) * UNITS == RoundHalfEven(part2 * UNITS) as real;
  }

  lemma HalfPartsFit(u: real, a: real, b: real)
    requires 0.0 <= a && 0.0 <= b && a + b <= u / 2.0
    ensures 0 <= RoundHalfEven(b)
    ensures RoundHalfEven(a) as real + RoundHalfEven(b) as real <= u
  {
    RoundingIsNearestEven(a, RoundHalfEven(a));
    RoundingIsNearestEven(b, RoundHalfEven(b));
    assert (RoundHalfEven(a) + RoundHalfEven(b)) as real <= a + b + 1.0;
    if u < 2.0 {
      assert a + b < 1.0;
      assert a.Floor == 0 && b.Floor == 0;
    }
  }

  /** A bill of three units split in halves: each half rounds up to two. */
  lemma EvenSplitOverpays()
    ensures TotalShare(CalculateShares(0.0000000003, 0.5, 0.5, 1, Some(2))) == 0.0000000004
  {
    TotalOfTwo(0.0000000003, 0.5, 0.5, 1, Some(2));
    RoundingIsNearestEven(0.0000000003 * 0.5 * UNITS, 2);
  }

  // ---- Rates of four decimals ---------------------------------------------------

  /** A stored commission rate: a whole number of ten-thousandths. */
  function Rate(k: nat): real {
    k as real / 10000.0
  }

  /** A bill of n units is never overpaid by the two rates. */
  predicate PaysWithin(n: nat, k1: nat, k2: nat) {
    var bill := n as real / UNITS;
    TotalShare(CalculateShares(bill, Rate(k1), Rate(k2), 0, Some(1))) <= bill
  }

  /** The rates leave no bill to overpay. */
  predicate SafePair(k1: nat, k2: nat) {
    k1 + k2 < 10000 || (k1 + k2 == 10000 && k1 % 16 != 8)
  }

  lemma BillOfUnits(n: nat)
    ensures var bill := n as real / UNITS; Aligned(bill) && (bill * UNITS).Floor == n && 0.0 <= bill
  {
    assert n as real / UNITS * UNITS == n as real;
  }

  lemma PartInUnits(n: nat, k: nat)
    ensures Portion(n as real / UNITS, Rate(k)) * UNITS == (n * k) as real / 10000.0
  {
    var bill := n as real / UNITS;
    assert bill * UNITS == n as real;
    assert n as real * Rate(k) == n as real * k as real / 10000.0;
    assert n as real * k as real == (n * k) as real;
    Regroup(bill, Rate(k), UNITS);
  }

  lemma Regroup(x: real, y: real, z: real)
    ensures (x * y) * z == (x * z) * y
  {
  }

  lemma Fraction(q: nat, r: nat)
    requires r < 10000
    ensures var x := (10000 * q + r) as real / 10000.0; x.Floor == q && (x - q as real == 0.5 <==> r == 5000)
  {
    assert (10000 * q + r) as real / 10000.0 == q as real + r as real / 10000.0;
  }

  lemma OddQuotient(q: nat, r: nat)
    requires r < 10000
    ensures (10000 * q + r) % 20000 == 15000 <==> r == 5000 && q % 2 == 1
  {
    var h, b := q / 2, q % 2;
    assert 10000 * q + r == 20000 * h + (10000 * b + r);
  }

  /** A whole number of ten-thousandths is an odd number and a half exactly in this residue. */
  lemma HalfAboveOdd(p: nat)
    ensures var x := p as real / 10000.0;
            x - x.Floor as real == 0.5 && x.Floor % 2 == 1 <==> p % 20000 == 15000
  {
    var q, r := p / 10000, p % 10000;
    assert p == 10000 * q + r;
    Fraction(q, r);
    OddQuotient(q, r);
  }

  lemma FloorBelowHalf(x: real, m: int)
    requires x == m as real + 0.5
    ensures x.Floor == m
  {
  }

  /** The rest of n after m and a half is a half less than n - m. */
  lemma OtherHalf(n: nat, a: real, b: real, m: int)
    requires a + b == n as real && a == m as real + 0.5
    ensures b.Floor == n - m - 1
  {
    assert b == (n - m - 1) as real + 0.5;
    FloorBelowHalf(b, n - m - 1);
  }

  lemma PartsAddUp(n: nat, p: nat, q: nat)
    requires p + q == 10000 * n
    ensures p as real / 10000.0 + q as real / 10000.0 == n as real
  {
    assert p as real + q as real == 10000.0 * n as real;
  }

  /** Two parts, in ten-thousandths, of n whole units. */
  lemma TieOfParts(n: nat, p: nat, q: nat)
    requires p + q == 10000 * n
    ensures var a, b := p as real / 10000.0, q as real / 10000.0;
            && a + b == n as real
            && (a - a.Floor as real == 0.5 && a.Floor % 2 == 1 && b.Floor % 2 == 1 <==> n % 2 == 1 && p % 20000 == 15000)
  {
    HalfAboveOdd(p);
    PartsAddUp(n, p, q);
    var a, b := p as real / 10000.0, q as real / 10000.0;
    if a - a.Floor as real == 0.5 {
      OtherHalf(n, a, b, a.Floor);
    }
  }

  /** With rates that sum to one, a bill of n units is a double tie exactly for odd n in this residue. */
  lemma DoubleTieIff(n: nat, k: nat)
    requires k <= 10000
    ensures DoubleTie(n as real / UNITS, Portion(n as real / UNITS, Rate(k)), Portion(n as real / UNITS, Rate(10000 - k)))
       <==> n % 2 == 1 && (n * k) % 20000 == 15000
  {
    PartInUnits(n, k);
    PartInUnits(n, 10000 - k);
    PartsOfUnits(n, k);
    TieOfParts(n, n * k, n * (10000 - k));
    SplitInTwo(n as real / UNITS, k);
  }

  lemma PartsOfUnits(n: nat, k: nat)
    requires k <= 10000
    ensures n * k + n * (10000 - k) == 10000 * n
  {
  }

  lemma SplitInTwo(bill: real, k: nat)
    requires k <= 10000
    ensures Portion(bill, Rate(k)) + Portion(bill, Rate(10000 - k)) == bill
  {
    assert Rate(k) + Rate(10000 - k) == 1.0;
    assert bill * Rate(k) + bill * Rate(10000 - k) == bill * (Rate(k) + Rate(10000 - k));
  }

  lemma OddTimesOdd(a: nat, b: nat)
    ensures (2 * a + 1) * (2 * b + 1) == 2 * (2 * (a * b) + a + b) + 1
  {
  }

  lemma ProductOfHalf(n: nat, j: nat)
    ensures n * (2 * j) == 2 * (n * j)
  {
  }

  /** An odd factor leaves the twos of an even product to the other one. */
  lemma HalveFactor(n: nat, k: nat, p: nat)
    requires n % 2 == 1 && n * k == 2 * p
    ensures k % 2 == 0 && n * (k / 2) == p
  {
    var j := k / 2;
    OddTimesOdd(n / 2, j);
    ProductOfHalf(n, j);
  }

  lemma EightsOfFactor(n: nat, k: nat, m: nat)
    requires n % 2 == 1 && n * k == 2 * (8 * m + 4)
    ensures k % 16 == 8
  {
    HalveFactor(n, k, 8 * m + 4);
    FoursOfFactor(n, k / 2, m);
  }

  lemma FoursOfFactor(n: nat, k: nat, m: nat)
    requires n % 2 == 1 && n * k == 8 * m + 4
    ensures k % 8 == 4
  {
    assert n * k == 2 * (4 * m + 2);
    HalveFactor(n, k, 4 * m + 2);
    TwosOfFactor(n, k / 2, m);
  }

  lemma TwosOfFactor(n: nat, k: nat, m: nat)
    requires n % 2 == 1 && n * k == 4 * m + 2
    ensures k % 4 == 2
  {
    assert n * k == 2 * (2 * m + 1);
    HalveFactor(n, k, 2 * m + 1);
    OddOfFactor(n, k / 2, m);
  }

  lemma OddOfFactor(n: nat, k: nat, m: nat)
    requires n * k == 2 * m + 1
    ensures k % 2 == 1
  {
    ProductOfHalf(n, k / 2);
  }

  /** Some bill is a double tie only if the rate is an odd multiple of eight ten-thousandths. */
  lemma TieNeedsOddEight(n: nat, k: nat)
    requires n % 2 == 1 && (n * k) % 20000 == 15000
    ensures k % 16 == 8
  {
    var t := (n * k) / 20000;
    EightsOfFactor(n, k, 1250 * t + 937);
  }

  function TiedBill(k: nat): nat {
    if k % 32 == 8 then 1875 else 625
  }

  lemma OddEightTies(k: nat)
    requires k % 16 == 8
    ensures TiedBill(k) % 2 == 1 && (TiedBill(k) * k) % 20000 == 15000
  {
    var q := k / 32;
    if k % 32 == 8 {
      assert k == 32 * q + 8;
      Residue(3 * q);
    } else {
      assert k == 32 * q + 24;
      Residue(q);
    }
  }

  lemma Residue(q: nat)
    ensures (20000 * q + 15000) % 20000 == 15000
  {
  }

  lemma BigBill(k1: nat, k2: nat) returns (n: nat)
    requires k1 + k2 > 10000
    ensures (Portion(n as real / UNITS, Rate(k1) + Rate(k2)) - n as real / UNITS) * UNITS > 1.0
  {
    n := 20000;
    var bill := n as real / UNITS;
    PartInUnits(n, k1 + k2);
    assert Rate(k1) + Rate(k2) == Rate(k1 + k2);
    assert (n * (k1 + k2)) as real / 10000.0 == (2 * (k1 + k2)) as real;
    assert bill * UNITS == n as real;
  }

  /**
    Two stored rates never overpay any bill exactly when they sum to less than one, or
    to one with a first rate that is no odd multiple of eight ten-thousandths.
   */
  lemma PairNeverOverpaysIff(k1: nat, k2: nat)
    requires k1 <= 10000 && k2 <= 10000
    ensures (forall n: nat :: PaysWithin(n, k1, k2)) <==> SafePair(k1, k2)
  {
    if SafePair(k1, k2) {
      forall n: nat
        ensures PaysWithin(n, k1, k2)
      {
        SafePairPaysWithin(n, k1, k2);
      }
    } else if k1 + k2 == 10000 {
      var n := TiedBill(k1);
      BillOfUnits(n);
      OddEightTies(k1);
      DoubleTieIff(n, k1);
      SharesAgainstBill(n as real / UNITS, Rate(k1), Rate(k2), 0, Some(1));
      assert !PaysWithin(n, k1, k2);
    } else {
      var n := BigBill(k1, k2);
      BillOfUnits(n);
      SharesAgainstBill(n as real / UNITS, Rate(k1), Rate(k2), 0, Some(1));
      assert !PaysWithin(n, k1, k2);
    }
  }

  lemma SafePairPaysWithin(n: nat, k1: nat, k2: nat)
    requires k1 <= 10000 && k2 <= 10000 && SafePair(k1, k2)
    ensures PaysWithin(n, k1, k2)
  {
    BillOfUnits(n);
    SharesAgainstBill(n as real / UNITS, Rate(k1), Rate(k2), 0, Some(1));
    if k1 + k2 == 10000 {
      DoubleTieIff(n, k1);
      if n % 2 == 1 && (n * k1) % 20000 == 15000 {
        TieNeedsOddEight(n, k1);
      }
    }
  }
}
