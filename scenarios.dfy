/** Concrete runs of the rule engine on the product and client of the repository's tests.
    Day numbers count from the client's birth date, 1991-10-22 (day 0): the sale expires on
    2023-02-15 (day 11439) and the plan is contracted on 2022-09-15 (day 11286). */
module Scenarios {
  import opened Outcomes
  import opened Models
  import ModelLemmas

  const BirthDay: Day := 0
  const SaleExpiration: Day := 11439
  const ContractDay: Day := 11286

  /** The tests' product: minimum initial contribution 2500.00, minimum extra 200.00,
      ages 18 to 65, 90 days of initial cooldown and 30 days between withdrawals. */
  method TestProduct() returns (p: Product)
    ensures fresh(p) && p.lastWithdrawal == None
    ensures p.saleExpiration == SaleExpiration && p.minInitial == 250000 && p.minExtra == 20000
    ensures p.entryAge == 18 && p.exitAge == 65 && p.initialCooldown == 90 && p.betweenCooldown == 30
  {
    p := new Product(SaleExpiration, 250000, 20000, 18, 65, 90, 30);
  }

  /** The client born on 1991-10-22 is 9 on 2000-10-22, 31 on 2022-10-22, 65 on 2056-10-22
      and 66 on 2057-10-22. */
  lemma TestClientAges()
    ensures Client(BirthDay).Age(3288) == 9
    ensures Client(BirthDay).Age(11323) == 31
    ensures Client(BirthDay).Age(23742) == 65
    ensures Client(BirthDay).Age(24107) == 66
  {
  }

  /** Contracting on 2022-09-15 with the minimum initial contribution is accepted, and the plan's
      balance is that contribution. */
  method EnrollmentScenario() returns (valid: Outcome, balance: Cents)
    ensures valid == Accepted && balance == 250000
  {
    var db := new Database();
    var product := TestProduct();
    var plan := new Plan(Client(BirthDay), product, 250000, ContractDay);
    valid := db.ContractPlan(plan);
    balance := plan.balance;
  }

  /** Contracting the day after the sale expired is refused, and so is an initial contribution
      one cent under the minimum; neither is persisted. */
  method EnrollmentRefusalScenario() returns (expired: Outcome, belowMinimum: Outcome, persisted: nat)
    ensures expired == Rejected(SaleExpired)
    ensures belowMinimum == Rejected(BelowMinimumInitial(250000))
    ensures persisted == 0
  {
    var db := new Database();
    var product := TestProduct();
    var late := new Plan(Client(BirthDay), product, 250000, SaleExpiration + 1);
    expired := db.ContractPlan(late);
    var short := new Plan(Client(BirthDay), product, 249999, ContractDay);
    belowMinimum := db.ContractPlan(short);
    ModelLemmas.EnrollmentChecksInOrder(product, 249999, ContractDay, Client(BirthDay).Age(ContractDay));
    persisted := |db.plans|;
  }

  /** A client born 2021-10-22 (age 0) and one born 1940-10-22 (age 81) are refused with the
      same error, which carries both age bounds. */
  method AgeRefusalScenario() returns (tooYoung: Outcome, tooOld: Outcome)
    ensures tooYoung == Rejected(AgeOutOfRange(18, 65))
    ensures tooOld == Rejected(AgeOutOfRange(18, 65))
  {
    var db := new Database();
    var product := TestProduct();
    var child := new Plan(Client(BirthDay + 10958), product, 250000, ContractDay);
    tooYoung := db.ContractPlan(child);
    ModelLemmas.EnrollmentChecksInOrder(product, 250000, ContractDay, child.client.Age(ContractDay));
    var senior := new Plan(Client(BirthDay - 18627), product, 250000, ContractDay);
    tooOld := db.ContractPlan(senior);
    ModelLemmas.EnrollmentChecksInOrder(product, 250000, ContractDay, senior.client.Age(ContractDay));
  }

  /** An extra contribution of exactly the minimum is accepted and raises the balance by its amount;
      one cent less is refused and leaves the balance as it was. */
  method ExtraContributionScenario() returns (accepted: Outcome, refused: Outcome, balance: Cents)
    ensures accepted == Accepted
    ensures refused == Rejected(BelowMinimumExtra(20000))
    ensures balance == 270000
  {
    var db := new Database();
    var product := TestProduct();
    var client := Client(BirthDay);
    var plan := new Plan(client, product, 250000, ContractDay);
    var contracted := db.ContractPlan(plan);
    ModelLemmas.ExtraContributionChecksInOrder(product, 250000, ContractDay, client.Age(ContractDay), 20000);
    accepted := db.SaveExtraContribution(ExtraContribution(client, plan, 20000));
    ModelLemmas.ExtraContributionChecksInOrder(product, 270000, ContractDay, client.Age(ContractDay), 19999);
    refused := db.SaveExtraContribution(ExtraContribution(client, plan, 19999));
    balance := plan.balance;
  }

  /** Withdrawing the whole balance on the contract day is refused by the 90-day initial cooldown,
      and withdrawing a cent more than the balance is refused first by the balance check. */
  method InitialCooldownScenario() returns (immediate: Outcome, overdrawn: Outcome)
    ensures immediate == Rejected(InitialCooldown(90))
    ensures overdrawn == Rejected(InsufficientBalance(250000))
  {
    var db := new Database();
    var product := TestProduct();
    var plan := new Plan(Client(BirthDay), product, 250000, ContractDay);
    var contracted := db.ContractPlan(plan);
    immediate := db.SaveWithdrawal(Withdrawal(plan, 250000), ContractDay);
    ModelLemmas.WithdrawalChecksInOrder(product, 250000, ContractDay, None, 250000, ContractDay);
    overdrawn := db.SaveWithdrawal(Withdrawal(plan, 250001), ContractDay);
  }

  /** Two withdrawals of the whole balance on the same day, well after the initial cooldown: the first
      is accepted and leaves the balance untouched, so the second is refused by the cooldown between
      withdrawals, not by the balance. */
  method RepeatedWithdrawalScenario() returns (first: Outcome, second: Outcome, balance: Cents)
    ensures first == Accepted && balance == 250000
    ensures second == Rejected(BetweenWithdrawalsCooldown(30))
  {
    var today := ContractDay + 400;
    var db := new Database();
    var product := TestProduct();
    var plan := new Plan(Client(BirthDay), product, 250000, ContractDay);
    var contracted := db.ContractPlan(plan);
    ModelLemmas.WithdrawalChecksInOrder(product, 250000, ContractDay, None, 250000, today);
    first := db.SaveWithdrawal(Withdrawal(plan, 250000), today);
    ModelLemmas.WithdrawalChecksInOrder(product, 250000, ContractDay, Some(today), 250000, today);
    second := db.SaveWithdrawal(Withdrawal(plan, 250000), today);
    balance := plan.balance;
  }

  /** The cooldown between withdrawals belongs to the product: after a withdrawal on one plan, a
      withdrawal the same day on another client's plan of the same product is refused. */
  method SharedCooldownScenario() returns (first: Outcome, otherPlan: Outcome)
    ensures first == Accepted
    ensures otherPlan == Rejected(BetweenWithdrawalsCooldown(30))
  {
    var today := ContractDay + 400;
    var db := new Database();
    var product := TestProduct();
    var plan := new Plan(Client(BirthDay), product, 250000, ContractDay);
    var other := new Plan(Client(BirthDay + 365), product, 300000, ContractDay);
    ModelLemmas.EnrollmentChecksInOrder(product, 250000, ContractDay, plan.client.Age(ContractDay));
    var contracted := db.ContractPlan(plan);
    ModelLemmas.EnrollmentChecksInOrder(product, 300000, ContractDay, other.client.Age(ContractDay));
    contracted := db.ContractPlan(other);
    ModelLemmas.WithdrawalChecksInOrder(product, 250000, ContractDay, None, 1000, today);
    first := db.SaveWithdrawal(Withdrawal(plan, 1000), today);
    ModelLemmas.WithdrawalChecksInOrder(product, 300000, ContractDay, Some(today), 1000, today);
    otherPlan := db.SaveWithdrawal(Withdrawal(other, 1000), today);
  }
}
