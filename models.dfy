/** The savings-plan models: clients, products, contracted plans and the tables they are
    persisted in, with the three save overrides that validate before persisting. */
module Models {
  import opened Outcomes

  /** Length of a year in days, as the age computation divides by it. */
  const YearLength: real := 365.242189

  /** `round(days / YearLength, 1)` truncated to an integer, for a non-negative day count:
      the whole number of years once the year count is rounded to one decimal. */
  function RoundedYears(days: nat): nat
  {
    (20_000_000 * days + 365_242_189) / 7_304_843_780
  }

  /** The rounded year count n is the one with n - 0.05 <= days / YearLength < n + 0.95, so that
      rounding days / YearLength to one decimal gives at least n and less than n + 1. */
  lemma RoundedYearsBounds(days: nat)
    ensures var n := RoundedYears(days);
      (n as real) - 0.05 <= (days as real) / YearLength < (n as real) + 0.95
  {
    var n := RoundedYears(days);
    assert n * 7_304_843_780 <= 20_000_000 * days + 365_242_189 < (n + 1) * 7_304_843_780;
  }

  /** A client; of its record only the birth date takes part in the rules. */
  datatype Client = Client(birthDate: Day) {

    /** The client's age on the given date: the elapsed years rounded to one decimal,
        then truncated toward zero. */
    function Age(on: Day): int
    {
      if on >= birthDate then RoundedYears(on - birthDate) else -(RoundedYears(birthDate - on) as int)
    }
  }

  /** The age is the elapsed years rounded to one decimal and then truncated toward zero, on dates
      after the birth date and before it alike. */
  lemma AgeIsTruncatedRoundedYears(client: Client, on: Day)
    ensures var age := client.Age(on); var years := ((on - client.birthDate) as real) / YearLength;
      (on >= client.birthDate ==> age >= 0 && (age as real) - 0.05 <= years < (age as real) + 0.95) &&
      (on < client.birthDate ==> age <= 0 && (age as real) - 0.95 < years <= (age as real) + 0.05)
  {
    if on >= client.birthDate {
      RoundedYearsBounds(on - client.birthDate);
    } else {
      RoundedYearsBounds(client.birthDate - on);
    }
  }

  /** A product: its eligibility and limit parameters, and the date of the last withdrawal
      made on any plan of the product, which every such plan shares. */
  class Product {
    const saleExpiration: Day
    const minInitial: Cents
    const minExtra: Cents
    const entryAge: int
    const exitAge: int
    const initialCooldown: int
    const betweenCooldown: int
    var lastWithdrawal: Option<Day>

    constructor (saleExpiration: Day, minInitial: Cents, minExtra: Cents, entryAge: int, exitAge: int,
                 initialCooldown: int, betweenCooldown: int)
      ensures this.saleExpiration == saleExpiration && this.minInitial == minInitial && this.minExtra == minExtra
      ensures this.entryAge == entryAge && this.exitAge == exitAge
      ensures this.initialCooldown == initialCooldown && this.betweenCooldown == betweenCooldown
      ensures lastWithdrawal == None
    {
      this.saleExpiration, this.minInitial, this.minExtra := saleExpiration, minInitial, minExtra;
      this.entryAge, this.exitAge := entryAge, exitAge;
      this.initialCooldown, this.betweenCooldown := initialCooldown, betweenCooldown;
      lastWithdrawal := None;
    }

    predicate SaleExpired(on: Day) { on > saleExpiration }

    predicate BelowMinimumInitial(amount: Cents) { amount < minInitial }

    predicate BelowMinimumExtra(amount: Cents) { amount < minExtra }

    predicate TooYoung(age: int) { age < entryAge }

    predicate TooOld(age: int) { age > exitAge }
  }

  /** A contracted plan: a client, a product, the current balance and the contract date. */
  class Plan {
    const client: Client
    const product: Product
    var balance: Cents
    const contractedOn: Day

    /** A plan not yet saved, whose balance is the initial contribution. */
    constructor (client: Client, product: Product, contribution: Cents, contractedOn: Day)
      ensures this.client == client && this.product == product
      ensures balance == contribution && this.contractedOn == contractedOn
    {
      this.client, this.product, this.contractedOn := client, product, contractedOn;
      balance := contribution;
    }

    /** A withdrawal of `amount` is denied when it exceeds the balance. */
    predicate WithdrawalDenied(amount: Cents)
      reads this
    {
      balance < amount
    }
  }

  /** An extra contribution record: the client it is credited for (not checked against the
      plan's owner), the plan and the amount. */
  datatype ExtraContribution = ExtraContribution(client: Client, plan: Plan, amount: Cents)

  /** A withdrawal record: the plan and the amount. */
  datatype Withdrawal = Withdrawal(plan: Plan, amount: Cents)

  /** The checks a plan must pass to be contracted, in the order they run. */
  function EnrollmentChecks(product: Product, contribution: Cents, on: Day, age: int): seq<Check>
  {
    [ Check(product.SaleExpired(on), SaleExpired),
      Check(product.BelowMinimumInitial(contribution), BelowMinimumInitial(product.minInitial)),
      Check(product.TooYoung(age) || product.TooOld(age), AgeOutOfRange(product.entryAge, product.exitAge)) ]
  }

  /** What contracting a plan of `product` with `contribution` on day `on`, by a client of age `age`, ends in. */
  function EnrollmentOutcome(product: Product, contribution: Cents, on: Day, age: int): Outcome
  {
    FirstFailure(EnrollmentChecks(product, contribution, on, age))
  }

  /** What an extra contribution of `amount` ends in, to a plan of `product` with the given balance
      and contract date whose client was `age` then: the extra minimum is checked, and then saving
      the plan with its increased balance runs the plan's own checks again. */
  function ExtraContributionOutcome(product: Product, balance: Cents, contractedOn: Day, age: int,
                                    amount: Cents): Outcome
  {
    FirstFailure([Check(product.BelowMinimumExtra(amount), BelowMinimumExtra(product.minExtra))]
                 + EnrollmentChecks(product, balance + amount, contractedOn, age))
  }

  /** The checks a withdrawal must pass, in the order they run, given the plan's balance and
      contract date, the product's last withdrawal date and today's date. */
  function WithdrawalChecks(product: Product, balance: Cents, contractedOn: Day, last: Option<Day>,
                            amount: Cents, today: Day): seq<Check>
  {
    [ Check(balance < amount, InsufficientBalance(balance)),
      Check(today - contractedOn < product.initialCooldown, InitialCooldown(product.initialCooldown)),
      Check(last.Some? && today - last.value < product.betweenCooldown,
            BetweenWithdrawalsCooldown(product.betweenCooldown)) ]
  }

  /** What a withdrawal of `amount` on day `today` ends in. */
  function WithdrawalOutcome(product: Product, balance: Cents, contractedOn: Day, last: Option<Day>,
                             amount: Cents, today: Day): Outcome
  {
    FirstFailure(WithdrawalChecks(product, balance, contractedOn, last, amount, today))
  }

  /** Sum of the extra contributions recorded for `plan`. */
  function ExtraTotal(records: seq<ExtraContribution>, plan: Plan): Cents
  {
    if records == [] then 0
    else
      var last := records[|records| - 1];
      ExtraTotal(records[..|records| - 1], plan) + (if last.plan == plan then last.amount else 0)
  }

  /** A plan that no record mentions has received no extra contribution. */
  lemma {:induction false} ExtraTotalUnmentioned(records: seq<ExtraContribution>, plan: Plan)
    requires forall r :: r in records ==> r.plan != plan
    ensures ExtraTotal(records, plan) == 0
  {
    if records != [] {
      ExtraTotalUnmentioned(records[..|records| - 1], plan);
    }
  }

  /** Appending a record adds its amount to its own plan's total and nothing to any other plan's. */
  lemma ExtraTotalAppend(records: seq<ExtraContribution>, r: ExtraContribution, plan: Plan)
    ensures ExtraTotal(records + [r], plan) == ExtraTotal(records, plan) + (if r.plan == plan then r.amount else 0)
  {
    assert (records + [r])[..|records|] == records;
  }

  /** The checks a plan's save override runs before persisting it, in order: the sale must not have
      expired on the contract date, the balance must reach the initial minimum, and the client's age on
      the contract date must lie within the product's window. */
  method ValidatePlan(product: Product, client: Client, balance: Cents, contractedOn: Day) returns (outcome: Outcome)
    ensures outcome == EnrollmentOutcome(product, balance, contractedOn, client.Age(contractedOn))
  {
    ghost var checks := EnrollmentChecks(product, balance, contractedOn, client.Age(contractedOn));
    if product.SaleExpired(contractedOn) {
      FirstFailureAt(checks, 0);
      return Rejected(SaleExpired);
    }
    if product.BelowMinimumInitial(balance) {
      FirstFailureAt(checks, 1);
      return Rejected(BelowMinimumInitial(product.minInitial));
    }
    var age := client.Age(contractedOn);
    var agesInvalid := [product.TooYoung(age), product.TooOld(age)];
    if agesInvalid[0] || agesInvalid[1] {
      FirstFailureAt(checks, 2);
      return Rejected(AgeOutOfRange(product.entryAge, product.exitAge));
    }
    outcome := Accepted;
  }

  /** A persisted plan was accepted when contracted with `contribution`, its balance is that
      contribution plus its recorded extra contributions (withdrawals never reduce it), and with
      that balance it would still pass its own checks. */
  ghost predicate Consistent(plan: Plan, contribution: Cents, records: seq<ExtraContribution>)
    reads plan
  {
    var age := plan.client.Age(plan.contractedOn);
    && EnrollmentOutcome(plan.product, contribution, plan.contractedOn, age) == Accepted
    && plan.balance == contribution + ExtraTotal(records, plan)
    && EnrollmentOutcome(plan.product, plan.balance, plan.contractedOn, age) == Accepted
  }

  /** The persisted tables: contracted plans, extra contributions and withdrawals. */
  class Database {
    var plans: seq<Plan>
    var extraContributions: seq<ExtraContribution>
    var withdrawals: seq<Withdrawal>
    /** The initial contribution each plan was contracted with, index by index. */
    ghost var contributions: seq<Cents>

    /** Every plan is consistent with the contribution it was contracted with and the recorded extra
        contributions; every record refers to a persisted plan and every extra contribution met its
        product's minimum. */
    ghost predicate Valid()
      reads this, plans
    {
      && |contributions| == |plans|
      && (forall i :: 0 <= i < |plans| ==> Consistent(plans[i], contributions[i], extraContributions))
      && (forall r :: r in extraContributions ==> r.plan in plans && !r.plan.product.BelowMinimumExtra(r.amount))
      && (forall w :: w in withdrawals ==> w.plan in plans)
    }

    constructor ()
      ensures Valid()
      ensures plans == [] && extraContributions == [] && withdrawals == []
    {
      plans, extraContributions, withdrawals := [], [], [];
      contributions := [];
    }

    /** Saves a new plan: rejects a product whose sale has expired, then a contribution under the
        initial minimum, then a client whose age is outside the product's window; otherwise persists it. */
    method ContractPlan(plan: Plan) returns (outcome: Outcome)
      requires Valid() && plan !in plans
      modifies this
      ensures Valid()
      ensures outcome == EnrollmentOutcome(plan.product, plan.balance, plan.contractedOn,
                                           plan.client.Age(plan.contractedOn))
      ensures plans == if outcome.Accepted? then old(plans) + [plan] else old(plans)
      ensures extraContributions == old(extraContributions) && withdrawals == old(withdrawals)
    {
      outcome := ValidatePlan(plan.product, plan.client, plan.balance, plan.contractedOn);
      if outcome.Rejected? {
        return;
      }
      ExtraTotalUnmentioned(extraContributions, plan);
      assert Consistent(plan, plan.balance, extraContributions);
      plans := plans + [plan];
      contributions := contributions + [plan.balance];
    }

    /** Saves an extra contribution: rejects an amount under the product's extra minimum; otherwise
        raises the plan's balance by the amount and saves the plan, which runs the plan's own checks
        on the new balance, and records the contribution only if they pass. */
    method SaveExtraContribution(record: ExtraContribution) returns (outcome: Outcome)
      requires Valid() && record.plan in plans
      modifies this, record.plan
      ensures Valid()
      ensures outcome == ExtraContributionOutcome(record.plan.product, old(record.plan.balance), record.plan.contractedOn,
                                                  record.plan.client.Age(record.plan.contractedOn), record.amount)
      ensures record.plan.balance == old(record.plan.balance) + (if outcome.Accepted? then record.amount else 0)
      ensures extraContributions == if outcome.Accepted? then old(extraContributions) + [record] else old(extraContributions)
      ensures plans == old(plans) && withdrawals == old(withdrawals)
    {
      var plan := record.plan;
      var product := plan.product;
      ghost var age := plan.client.Age(plan.contractedOn);
      ghost var checks := [Check(product.BelowMinimumExtra(record.amount), BelowMinimumExtra(product.minExtra))]
                          + EnrollmentChecks(product, plan.balance + record.amount, plan.contractedOn, age);
      if product.BelowMinimumExtra(record.amount) {
        FirstFailureAt(checks, 0);
        return Rejected(BelowMinimumExtra(product.minExtra));
      }
      // saving the plan re-runs its save override on the increased balance
      outcome := ValidatePlan(product, plan.client, plan.balance + record.amount, plan.contractedOn);
      if outcome.Rejected? {
        FirstFailureSkipsPassed(checks, 1);
        assert checks[1..] == EnrollmentChecks(product, plan.balance + record.amount, plan.contractedOn, age);
        return;
      }
      plan.balance := plan.balance + record.amount;
      forall p: Plan
        ensures ExtraTotal(extraContributions + [record], p) == ExtraTotal(extraContributions, p) + (if record.plan == p then record.amount else 0)
      {
        ExtraTotalAppend(extraContributions, record, p);
      }
      extraContributions := extraContributions + [record];
    }

    /** Saves a withdrawal made on day `today`: rejects an amount above the plan's balance, then a
        withdrawal within the initial cooldown since contracting, then one within the cooldown since
        the product's last withdrawal; otherwise stamps the product's last withdrawal date with today
        and records the withdrawal. The plan's balance is left as it was. */
    method SaveWithdrawal(record: Withdrawal, today: Day) returns (outcome: Outcome)
      requires Valid() && record.plan in plans
      modifies this, record.plan.product
      ensures Valid()
      ensures outcome == WithdrawalOutcome(record.plan.product, record.plan.balance, record.plan.contractedOn,
                                           old(record.plan.product.lastWithdrawal), record.amount, today)
      ensures record.plan.product.lastWithdrawal ==
                if outcome.Accepted? then Some(today) else old(record.plan.product.lastWithdrawal)
      ensures plans == old(plans) && extraContributions == old(extraContributions)
      ensures forall p :: p in plans ==> p.balance == old(p.balance)
      ensures withdrawals == if outcome.Accepted? then old(withdrawals) + [record] else old(withdrawals)
    {
      var plan := record.plan;
      var product := plan.product;
      var checks := WithdrawalChecks(product, plan.balance, plan.contractedOn, product.lastWithdrawal, record.amount, today);
      if plan.WithdrawalDenied(record.amount) {
        FirstFailureAt(checks, 0);
        return Rejected(InsufficientBalance(plan.balance));
      }
      if today - plan.contractedOn < product.initialCooldown {
        FirstFailureAt(checks, 1);
        return Rejected(InitialCooldown(product.initialCooldown));
      }
      if product.lastWithdrawal.Some? {
        if today - product.lastWithdrawal.value < product.betweenCooldown {
          FirstFailureAt(checks, 2);
          return Rejected(BetweenWithdrawalsCooldown(product.betweenCooldown));
        }
      }
      product.lastWithdrawal := Some(today);
      withdrawals := withdrawals + [record];
      outcome := Accepted;
    }
  }
}
