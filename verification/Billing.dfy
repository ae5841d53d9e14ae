/**
  Settlement of one billed request: the ledger's token range and the choice of the
  two commission rates (crates/keycompute-billing/src/usage_log.rs).
 */
module Billing {
  import opened Common
  import opened Money

  // ---- Token range -----------------------------------------------------------------

  const U32_MAX: nat := 0xFFFF_FFFF
  const I32_MAX: nat := 0x7FFF_FFFF

  datatype TokenError = TotalOutOfRange | InputOutOfRange | OutputOutOfRange

  datatype Tokens = Tokens(input: nat, output: nat, total: nat)

  /** The checks of finalize, in its order; counters are 32-bit unsigned. */
  function LedgerTokens(input: nat, output: nat): Result<Tokens, TokenError>
    requires input <= U32_MAX && output <= U32_MAX
  {
    if input + output > U32_MAX then Err(TotalOutOfRange)
    else if input > I32_MAX then Err(InputOutOfRange)
    else if output > I32_MAX then Err(OutputOutOfRange)
    else if input + output > I32_MAX then Err(TotalOutOfRange)
    else Ok(Tokens(input, output, input + output))
  }

  // ---- Commission rates ----------------------------------------------------------------

  datatype Scope = Everyone | TenantMember

  /** Stored rates lie between zero and one and have four decimals; this counts ten-thousandths. */
  type Basis = k: nat | k <= 10000

  /** `rate` is None when the stored number does not convert. */
  datatype Rule = Rule(id: nat, scope: Scope, beneficiary: Option<nat>, rate: Option<Basis>, priority: int)

  function FindFirst(rules: seq<Rule>, p: Rule -> bool): (i: Option<nat>)
    ensures i.Some? ==> i.value < |rules| && p(rules[i.value]) && forall j :: 0 <= j < i.value ==> !p(rules[j])
    ensures i.None? ==> forall j :: 0 <= j < |rules| ==> !p(rules[j])
  {
    if rules == [] then None
    else
      var i := FindFirst(rules[..|rules| - 1], p);
      if i.Some? then i else if p(rules[|rules| - 1]) then Some(|rules| - 1) else None
  }

  function FindLast(rules: seq<Rule>, p: Rule -> bool): (i: Option<nat>)
    ensures i.Some? ==> i.value < |rules| && p(rules[i.value]) && forall j :: i.value < j < |rules| ==> !p(rules[j])
    ensures i.None? ==> forall j :: 0 <= j < |rules| ==> !p(rules[j])
  {
    if rules == [] then None
    else if p(rules[|rules| - 1]) then Some(|rules| - 1)
    else FindLast(rules[..|rules| - 1], p)
  }

  predicate OwnRule(r: Rule, user: nat) {
    r.scope.TenantMember? && r.beneficiary == Some(user)
  }

  function RateAt(rules: seq<Rule>, i: Option<nat>): Option<Basis>
    requires i.Some? ==> i.value < |rules|
  {
    if i.Some? then rules[i.value].rate else None
  }

  function FirstGlobal(rules: seq<Rule>): (i: Option<nat>)
    ensures i.Some? ==> i.value < |rules|
  {
    FindFirst(rules, (r: Rule) => r.scope.Everyone?)
  }

  function Level1Ratio(rules: seq<Rule>, user: nat, fallback: Basis): Basis {
    var own := FindFirst(rules, (r: Rule) => OwnRule(r, user));
    var rate := RateAt(rules, if own.Some? then own else FirstGlobal(rules));
    if rate.Some? then rate.value else fallback
  }

  function Level2Ratio(rules: seq<Rule>, user: Option<nat>, fallback: Basis): Basis {
    var own := if user.None? then None else RateAt(rules, FindFirst(rules, (r: Rule) => OwnRule(r, user.value)));
    if own.Some? then own.value
    else
      var first := FirstGlobal(rules);
      var rate := RateAt(rules, FindLast(rules, (r: Rule) =>
                                  r.scope.Everyone? && (first.Some? ==> r.id != rules[first.value].id)));
      if rate.Some? then rate.value else fallback
  }

  predicate DistinctIds(rules: seq<Rule>) {
    forall i, j :: 0 <= i < j < |rules| ==> rules[i].id != rules[j].id
  }

  /** Rules come highest priority first. */
  predicate ByPriority(rules: seq<Rule>) {
    forall i, j :: 0 <= i < j < |rules| ==> rules[i].priority >= rules[j].priority
  }

  predicate TopGlobal(rules: seq<Rule>, i: nat) {
    && i < |rules| && rules[i].scope.Everyone?
    && forall j :: 0 <= j < i ==> !rules[j].scope.Everyone?
  }

  predicate BottomGlobal(rules: seq<Rule>, i: nat) {
    && i < |rules| && rules[i].scope.Everyone?
    && forall j :: i < j < |rules| ==> !rules[j].scope.Everyone?
  }

  /**
    Without a rule of their own, the first level gets the top global rule and the
    second level the bottom one, provided it is a different rule; a single global rule
    is never paid at both levels.
   */
  lemma GlobalRatesAreTopAndBottom(rules: seq<Rule>, user1: nat, user2: nat, d1: Basis, d2: Basis, top: nat, bottom: nat)
    requires DistinctIds(rules) && ByPriority(rules) && TopGlobal(rules, top) && BottomGlobal(rules, bottom)
    requires forall i :: 0 <= i < |rules| ==> !OwnRule(rules[i], user1) && !OwnRule(rules[i], user2)
    ensures Level1Ratio(rules, user1, d1) == if rules[top].rate.Some? then rules[top].rate.value else d1
    ensures Level2Ratio(rules, Some(user2), d2) ==
            if top != bottom && rules[bottom].rate.Some? then rules[bottom].rate.value else d2
    ensures rules[top].priority >= rules[bottom].priority
  {
    var first := FirstGlobal(rules);
    assert first == Some(top);
    var q := (r: Rule) => r.scope.Everyone? && (first.Some? ==> r.id != rules[first.value].id);
    if top != bottom {
      assert q(rules[bottom]);
      assert FindLast(rules, q) == Some(bottom);
    } else {
      assert FindLast(rules, q).None?;
    }
  }

  /** A rule of one's own takes precedence over every global rule, at both levels. */
  lemma OwnRuleWins(rules: seq<Rule>, user: nat, d: Basis, i: nat)
    requires i < |rules| && OwnRule(rules[i], user) && rules[i].rate.Some?
    requires forall j :: 0 <= j < i ==> !OwnRule(rules[j], user)
    ensures Level1Ratio(rules, user, d) == rules[i].rate.value == Level2Ratio(rules, Some(user), d)
  {
    var own := FindFirst(rules, (r: Rule) => OwnRule(r, user));
    assert own == Some(i);
  }

  /** No rule of the list is the user's own. */
  predicate NoOwn(rules: seq<Rule>, user: nat) {
    forall i :: 0 <= i < |rules| ==> !OwnRule(rules[i], user)
  }

  predicate NoGlobal(rules: seq<Rule>) {
    forall i :: 0 <= i < |rules| ==> !rules[i].scope.Everyone?
  }

  /** The first of the user's own rules has a rate that does not convert. */
  ghost predicate UnreadableOwn(rules: seq<Rule>, user: nat) {
    exists i :: FirstOwn(rules, user, i) && rules[i].rate.None?
  }

  predicate FirstOwn(rules: seq<Rule>, user: nat, i: int) {
    0 <= i < |rules| && OwnRule(rules[i], user) && forall j :: 0 <= j < i ==> !OwnRule(rules[j], user)
  }

  /** Where no rule applies, each level comes to its own default. */
  lemma DefaultsApply(rules: seq<Rule>, user1: nat, user2: Option<nat>, d1: Basis, d2: Basis)
    requires NoGlobal(rules)
    ensures NoOwn(rules, user1) ==> Level1Ratio(rules, user1, d1) == d1
    ensures user2.None? || NoOwn(rules, user2.value) ==> Level2Ratio(rules, user2, d2) == d2
  {
  }

  /**
    An own rule whose rate does not convert ends the search at the first level, which
    comes to its default even where a global rule stands; the second level goes on to the
    bottom global rule, as it does without an own rule or without a second user.
   */
  lemma UnreadableOwnRule(rules: seq<Rule>, user: Option<nat>, d1: Basis, d2: Basis, top: nat, bottom: nat)
    requires DistinctIds(rules)
    ensures user.Some? && UnreadableOwn(rules, user.value) ==> Level1Ratio(rules, user.value, d1) == d1
    ensures (user.None? || NoOwn(rules, user.value) || UnreadableOwn(rules, user.value))
            && TopGlobal(rules, top) && BottomGlobal(rules, bottom) ==>
              Level2Ratio(rules, user, d2) == if top != bottom && rules[bottom].rate.Some? then rules[bottom].rate.value else d2
    ensures user.Some? && UnreadableOwn(rules, user.value) && NoGlobal(rules) ==> Level2Ratio(rules, user, d2) == d2
  {
    if user.Some? && UnreadableOwn(rules, user.value) {
      var i :| FirstOwn(rules, user.value, i) && rules[i].rate.None?;
      OwnRuleIsFound(rules, user.value, i);
    }
    if TopGlobal(rules, top) && BottomGlobal(rules, bottom) {
      var first := FirstGlobal(rules);
      assert first == Some(top);
      var q := (r: Rule) => r.scope.Everyone? && (first.Some? ==> r.id != rules[first.value].id);
      assert FindLast(rules, q) == if top != bottom then Some(bottom) else None;
    }
  }

  lemma OwnRuleIsFound(rules: seq<Rule>, user: nat, i: nat)
    requires FirstOwn(rules, user, i)
    ensures FindFirst(rules, (r: Rule) => OwnRule(r, user)) == Some(i)
  {
  }

  // ---- Payout against bill -------------------------------------------------------------

  /** The shares of one settlement. */
  function Settlement(bill: real, rules: seq<Rule>, user1: nat, user2: Option<nat>, d1: Basis, d2: Basis): seq<Share> {
    CalculateShares(bill, Rate(Level1Ratio(rules, user1, d1)), Rate(Level2Ratio(rules, user2, d2)), user1, user2)
  }

  function Payout(bill: real, rules: seq<Rule>, user1: nat, user2: Option<nat>, d1: Basis, d2: Basis): real {
    TotalShare(Settlement(bill, rules, user1, user2, d1, d2))
  }

  /** Every user is paid within half a unit per level of the bill times the rate chosen for that level. */
  lemma SettlementPaysEachLevel(bill: real, rules: seq<Rule>, user1: nat, user2: Option<nat>, d1: Basis, d2: Basis, user: nat)
    ensures var shares := Settlement(bill, rules, user1, user2, d1, d2);
            var r1, r2 := Rate(Level1Ratio(rules, user1, d1)), Rate(Level2Ratio(rules, user2, d2));
            && |shares| == (if user2.Some? then 2 else 1) && Due(shares[0], Level1, user1, bill, r1)
            && (user2.Some? ==> Due(shares[1], Level2, user2.value, bill, r2))
            && PaidTheirRates(shares, bill, r1, r2, user1, user2, user)
  {
    var r1, r2 := Rate(Level1Ratio(rules, user1, d1)), Rate(Level2Ratio(rules, user2, d2));
    SharesAreDue(bill, r1, r2, user1, user2);
    EveryUserIsPaidTheirRates(bill, r1, r2, user1, user2, user);
  }

  /**
    What a settlement pays out against what it billed, for every token count, price and
    rule list: it overpays exactly if there is a second level and the two parts of the
    charge pass it, and never if the selected rates are a safe pair.
   */
  lemma SettlementOverpaysIff(input: nat, output: nat, inputPrice: real, outputPrice: real, rules: seq<Rule>,
                              user1: nat, user2: Option<nat>, d1: Basis, d2: Basis)
    requires 0.0 <= inputPrice && 0.0 <= outputPrice
    ensures var bill := CalculateAmount(input, output, inputPrice, outputPrice);
            var k1, k2 := Level1Ratio(rules, user1, d1), Level2Ratio(rules, user2, d2);
            && (Payout(bill, rules, user1, user2, d1, d2) > bill
                <==> user2.Some? && Overpays(bill, Portion(bill, Rate(k1)), Portion(bill, Rate(k2))))
            && (SafePair(k1, k2) ==> Payout(bill, rules, user1, user2, d1, d2) <= bill)
  {
    var bill := CalculateAmount(input, output, inputPrice, outputPrice);
    var k1, k2 := Level1Ratio(rules, user1, d1), Level2Ratio(rules, user2, d2);
    ChargeWithinOneUnit(input, output, inputPrice, outputPrice);
    ChargeIsMonotone(input, input, output, output, inputPrice, inputPrice, outputPrice, outputPrice);
    SharesAgainstBill(bill, Rate(k1), Rate(k2), user1, user2);
    if SafePair(k1, k2) {
      var n := (bill * UNITS).Floor;
      assert bill == n as real / UNITS;
      SafePairPaysWithin(n, k1, k2);
      SharesAgainstBill(bill, Rate(k1), Rate(k2), 0, Some(1));
    }
  }

  /** The users that some rule names. */
  function Listed(rules: seq<Rule>): set<nat> {
    set i | 0 <= i < |rules| && rules[i].beneficiary.Some? :: rules[i].beneficiary.value
  }

  /** Some user that no rule names. */
  function Outsider(rules: seq<Rule>): (u: nat)
    ensures forall i :: 0 <= i < |rules| && rules[i].beneficiary.Some? ==> rules[i].beneficiary.value < u
  {
    if rules == [] then 0
    else
      var u, last := Outsider(rules[..|rules| - 1]), rules[|rules| - 1].beneficiary;
      if last.Some? && last.value >= u then last.value + 1 else u
  }

  /** The rates a level can come to: one look-up for each listed user and one for all others. */
  function Level1Rates(rules: seq<Rule>, d1: Basis): set<Basis> {
    set u | u in Listed(rules) + {Outsider(rules)} :: Level1Ratio(rules, u, d1)
  }

  function Level2Rates(rules: seq<Rule>, d2: Basis): set<Basis> {
    set u | u in Listed(rules) + {Outsider(rules)} :: Level2Ratio(rules, Some(u), d2)
  }

  lemma UnlistedUsersAreAlike(rules: seq<Rule>, u: nat, d1: Basis, d2: Basis)
    requires u !in Listed(rules)
    ensures Level1Ratio(rules, u, d1) == Level1Ratio(rules, Outsider(rules), d1)
    ensures Level2Ratio(rules, Some(u), d2) == Level2Ratio(rules, Some(Outsider(rules)), d2)
  {
    NoOwnRule(rules, u);
    NoOwnRule(rules, Outsider(rules));
  }

  lemma NoOwnRule(rules: seq<Rule>, u: nat)
    requires u !in Listed(rules)
    ensures FindFirst(rules, (r: Rule) => OwnRule(r, u)).None?
  {
    assert forall i :: 0 <= i < |rules| && rules[i].beneficiary.Some? ==> rules[i].beneficiary.value in Listed(rules);
  }

  lemma RatesAreListed(rules: seq<Rule>, u: nat, d1: Basis, d2: Basis)
    ensures Level1Ratio(rules, u, d1) in Level1Rates(rules, d1)
    ensures Level2Ratio(rules, Some(u), d2) in Level2Rates(rules, d2)
  {
    var known := Listed(rules) + {Outsider(rules)};
    if u in known {
      assert Level1Ratio(rules, u, d1) in Level1Rates(rules, d1);
    } else {
      UnlistedUsersAreAlike(rules, u, d1, d2);
      assert Outsider(rules) in known;
    }
  }

  /** The settlement of a bill of n units with these beneficiaries pays out no more than the bill. */
  predicate SettlesWithin(rules: seq<Rule>, d1: Basis, d2: Basis, user1: nat, user2: nat, n: nat) {
    PaysWithin(n, Level1Ratio(rules, user1, d1), Level2Ratio(rules, Some(user2), d2))
  }

  /** Every pair of rates the two levels can come to is safe: finitely many sums and one residue. */
  predicate RulesFit(rules: seq<Rule>, d1: Basis, d2: Basis) {
    forall x, y :: x in Level1Rates(rules, d1) && y in Level2Rates(rules, d2) ==> SafePair(x, y)
  }

  /**
    A rule list with its defaults never pays out more than any bill, whoever the
    beneficiaries are, exactly when all its pairs of rates are safe.
   */
  lemma RulesNeverOverpayIff(rules: seq<Rule>, d1: Basis, d2: Basis)
    ensures (forall u: nat, v: nat, n: nat :: SettlesWithin(rules, d1, d2, u, v, n)) <==> RulesFit(rules, d1, d2)
  {
    if RulesFit(rules, d1, d2) {
      forall u: nat, v: nat, n: nat
        ensures SettlesWithin(rules, d1, d2, u, v, n)
      {
        RatesAreListed(rules, u, d1, d2);
        RatesAreListed(rules, v, d1, d2);
        SafePairPaysWithin(n, Level1Ratio(rules, u, d1), Level2Ratio(rules, Some(v), d2));
      }
    } else {
      var x, y :| x in Level1Rates(rules, d1) && y in Level2Rates(rules, d2) && !SafePair(x, y);
      var u :| u in Listed(rules) + {Outsider(rules)} && x == Level1Ratio(rules, u, d1);
      var v :| v in Listed(rules) + {Outsider(rules)} && y == Level2Ratio(rules, Some(v), d2);
      PairNeverOverpaysIff(x, y);
      var n: nat :| !PaysWithin(n, x, y);
      assert !SettlesWithin(rules, d1, d2, u, v, n);
    }
  }

  /** Every bill of whole units is some charge, so the bills above all occur. */
  lemma EveryBillIsCharged(n: nat)
    ensures CalculateAmount(1000, 0, n as real / UNITS, 0.0) == n as real / UNITS
  {
    BillOfUnits(n);
    Round10IsAligned(n as real / UNITS);
    BillOfUnits(0);
    Round10IsAligned(0.0);
    assert ExactLine(1000, n as real / UNITS) == n as real / UNITS;
    assert ExactLine(0, 0.0) == 0.0;
  }

  /** Nothing bounds the sum: two users with a full rate each are paid twice a bill of one. */
  lemma TwoFullRatesPayDouble()
    ensures var rules := [Rule(1, TenantMember, Some(7), Some(10000), 0), Rule(2, TenantMember, Some(8), Some(10000), 0)];
            && CalculateAmount(1000, 0, 1.0, 0.0) == 1.0
            && Payout(1.0, rules, 7, Some(8), 300, 200) == 2.0
  {
    var rules := [Rule(1, TenantMember, Some(7), Some(10000), 0), Rule(2, TenantMember, Some(8), Some(10000), 0)];
    EveryBillIsCharged(10000000000);
    OwnRuleWins(rules, 7, 300, 0);
    OwnRuleWins(rules, 8, 200, 1);
    BillOfUnits(10000000000);
    Round10IsAligned(1.0);
    TotalOfTwo(1.0, 1.0, 1.0, 7, Some(8));
    assert Portion(1.0, 1.0) == 1.0;
  }

  /** The defaults alone, and any list of rates below one half, fit. */
  lemma SmallRatesFit(rules: seq<Rule>, d1: Basis, d2: Basis)
    requires d1 < 5000 && d2 <= 5000
    requires forall i :: 0 <= i < |rules| && rules[i].rate.Some? ==> rules[i].rate.value < 5000
    ensures RulesFit(rules, d1, d2)
  {
    forall x, y | x in Level1Rates(rules, d1) && y in Level2Rates(rules, d2)
      ensures SafePair(x, y)
    {
      var u :| u in Listed(rules) + {Outsider(rules)} && x == Level1Ratio(rules, u, d1);
      var v :| v in Listed(rules) + {Outsider(rules)} && y == Level2Ratio(rules, Some(v), d2);
      RatesAreSmall(rules, u, v, d1, d2);
    }
  }

  /** A level's rate is that of some rule, or the default. */
  lemma RatesAreSmall(rules: seq<Rule>, u: nat, v: nat, d1: Basis, d2: Basis)
    requires d1 < 5000 && d2 <= 5000
    requires forall i :: 0 <= i < |rules| && rules[i].rate.Some? ==> rules[i].rate.value < 5000
    ensures Level1Ratio(rules, u, d1) < 5000 && Level2Ratio(rules, Some(v), d2) <= 5000
  {
  }

  /** The four range checks amount to one bound on the total; at most one part is too large by itself, and it is named. */
  lemma TokensFitIff(input: nat, output: nat)
    requires input <= U32_MAX && output <= U32_MAX
    ensures LedgerTokens(input, output).Ok? <==> input + output <= I32_MAX
    ensures LedgerTokens(input, output).Ok? ==>
              LedgerTokens(input, output).value == Tokens(input, output, input + output)
    ensures LedgerTokens(input, output) == Err(InputOutOfRange) <==> input > I32_MAX && input + output <= U32_MAX
    ensures LedgerTokens(input, output) == Err(OutputOutOfRange) <==> output > I32_MAX && input + output <= U32_MAX
  {
  }
}
