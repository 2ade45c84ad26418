/** Properties of the rules the save overrides enforce: the order of the checks, which
    boundaries are inclusive, and the cooldown shared by every plan of a product. */
module ModelLemmas {
  import opened Outcomes
  import opened Models

  /** Contracting runs its checks in order and the first failure decides: an expired sale, then a
      contribution under the minimum, then an age outside the window, which both bounds are reported for. */
  lemma EnrollmentChecksInOrder(p: Product, contribution: Cents, on: Day, age: int)
    ensures p.SaleExpired(on) ==> EnrollmentOutcome(p, contribution, on, age) == Rejected(SaleExpired)
    ensures !p.SaleExpired(on) && contribution < p.minInitial ==>
      EnrollmentOutcome(p, contribution, on, age) == Rejected(BelowMinimumInitial(p.minInitial))
    ensures !p.SaleExpired(on) && contribution >= p.minInitial && (age < p.entryAge || age > p.exitAge) ==>
      EnrollmentOutcome(p, contribution, on, age) == Rejected(AgeOutOfRange(p.entryAge, p.exitAge))
    ensures EnrollmentOutcome(p, contribution, on, age) == Accepted <==>
      on <= p.saleExpiration && contribution >= p.minInitial && p.entryAge <= age <= p.exitAge
  {
    var checks := EnrollmentChecks(p, contribution, on, age);
    if p.SaleExpired(on) {
      FirstFailureAt(checks, 0);
    } else if contribution < p.minInitial {
      FirstFailureAt(checks, 1);
    } else if age < p.entryAge || age > p.exitAge {
      FirstFailureAt(checks, 2);
    }
  }

  /** The expiration day is still open for sale and the day after is not; the minimum initial
      contribution itself is enough and one cent less is not; both age bounds are admitted. */
  lemma EnrollmentBoundariesInclusive(p: Product, age: int)
    requires p.entryAge <= age <= p.exitAge
    ensures EnrollmentOutcome(p, p.minInitial, p.saleExpiration, age) == Accepted
    ensures EnrollmentOutcome(p, p.minInitial, p.saleExpiration + 1, age) == Rejected(SaleExpired)
    ensures EnrollmentOutcome(p, p.minInitial - 1, p.saleExpiration, age) ==
      Rejected(BelowMinimumInitial(p.minInitial))
    ensures EnrollmentOutcome(p, p.minInitial, p.saleExpiration, p.entryAge) == Accepted
    ensures EnrollmentOutcome(p, p.minInitial, p.saleExpiration, p.exitAge) == Accepted
  {
    EnrollmentChecksInOrder(p, p.minInitial, p.saleExpiration, age);
    EnrollmentChecksInOrder(p, p.minInitial, p.saleExpiration + 1, age);
    EnrollmentChecksInOrder(p, p.minInitial - 1, p.saleExpiration, age);
    EnrollmentChecksInOrder(p, p.minInitial, p.saleExpiration, p.entryAge);
    EnrollmentChecksInOrder(p, p.minInitial, p.saleExpiration, p.exitAge);
  }

  /** A client too young and a client too old are refused with one and the same error,
      carrying both bounds whichever was violated. */
  lemma AgeViolationsShareOneError(p: Product, contribution: Cents, on: Day, young: int, elderly: int)
    requires !p.SaleExpired(on) && contribution >= p.minInitial
    requires young < p.entryAge && elderly > p.exitAge
    ensures EnrollmentOutcome(p, contribution, on, young) == EnrollmentOutcome(p, contribution, on, elderly)
    ensures EnrollmentOutcome(p, contribution, on, elderly) == Rejected(AgeOutOfRange(p.entryAge, p.exitAge))
  {
    EnrollmentChecksInOrder(p, contribution, on, young);
    EnrollmentChecksInOrder(p, contribution, on, elderly);
  }

  /** For a plan that passes its own checks, as every persisted plan does: an extra contribution is
      refused with the extra minimum as payload when it is under that minimum; otherwise it is refused
      with the initial minimum when it would leave the balance under that minimum (only a negative
      amount can), since saving the plan re-runs the plan's checks; otherwise it is accepted. */
  lemma ExtraContributionChecksInOrder(p: Product, balance: Cents, contractedOn: Day, age: int, amount: Cents)
    requires EnrollmentOutcome(p, balance, contractedOn, age) == Accepted
    ensures ExtraContributionOutcome(p, balance, contractedOn, age, amount) ==
      if amount < p.minExtra then Rejected(BelowMinimumExtra(p.minExtra))
      else if balance + amount < p.minInitial then Rejected(BelowMinimumInitial(p.minInitial))
      else Accepted
  {
    var checks := [Check(p.BelowMinimumExtra(amount), BelowMinimumExtra(p.minExtra))]
                  + EnrollmentChecks(p, balance + amount, contractedOn, age);
    EnrollmentChecksInOrder(p, balance, contractedOn, age);
    if amount < p.minExtra {
      FirstFailureAt(checks, 0);
    } else {
      FirstFailureSkipsPassed(checks, 1);
      assert checks[1..] == EnrollmentChecks(p, balance + amount, contractedOn, age);
      EnrollmentChecksInOrder(p, balance + amount, contractedOn, age);
    }
  }

  /** With a non-negative extra minimum, an extra contribution of exactly that minimum is accepted
      and one cent less is refused. */
  lemma ExtraContributionBoundaryInclusive(p: Product, balance: Cents, contractedOn: Day, age: int)
    requires EnrollmentOutcome(p, balance, contractedOn, age) == Accepted
    requires p.minExtra >= 0
    ensures ExtraContributionOutcome(p, balance, contractedOn, age, p.minExtra) == Accepted
    ensures ExtraContributionOutcome(p, balance, contractedOn, age, p.minExtra - 1) ==
      Rejected(BelowMinimumExtra(p.minExtra))
  {
    EnrollmentChecksInOrder(p, balance, contractedOn, age);
    ExtraContributionChecksInOrder(p, balance, contractedOn, age, p.minExtra);
    ExtraContributionChecksInOrder(p, balance, contractedOn, age, p.minExtra - 1);
  }

  /** A withdrawal runs its checks in order: an amount above the balance (reported with the balance),
      then the initial cooldown, then, only when the product has a last withdrawal date, the
      cooldown between withdrawals (each reported with its length). */
  lemma WithdrawalChecksInOrder(p: Product, balance: Cents, contractedOn: Day, last: Option<Day>,
                                amount: Cents, today: Day)
    ensures amount > balance ==>
      WithdrawalOutcome(p, balance, contractedOn, last, amount, today) == Rejected(InsufficientBalance(balance))
    ensures amount <= balance && today - contractedOn < p.initialCooldown ==>
      WithdrawalOutcome(p, balance, contractedOn, last, amount, today) == Rejected(InitialCooldown(p.initialCooldown))
    ensures amount <= balance && today - contractedOn >= p.initialCooldown &&
            last.Some? && today - last.value < p.betweenCooldown ==>
      WithdrawalOutcome(p, balance, contractedOn, last, amount, today) ==
        Rejected(BetweenWithdrawalsCooldown(p.betweenCooldown))
    ensures WithdrawalOutcome(p, balance, contractedOn, last, amount, today) == Accepted <==>
      amount <= balance && today - contractedOn >= p.initialCooldown &&
      (last.None? || today - last.value >= p.betweenCooldown)
  {
    var checks := WithdrawalChecks(p, balance, contractedOn, last, amount, today);
    if amount > balance {
      FirstFailureAt(checks, 0);
    } else if today - contractedOn < p.initialCooldown {
      FirstFailureAt(checks, 1);
    } else if last.Some? && today - last.value < p.betweenCooldown {
      FirstFailureAt(checks, 2);
    }
  }

  /** Withdrawing exactly the balance passes the balance check, and the initial cooldown ends on
      the day that many days after contracting. */
  lemma WithdrawalBoundariesInclusive(p: Product, balance: Cents, contractedOn: Day)
    ensures WithdrawalOutcome(p, balance, contractedOn, None, balance, contractedOn + p.initialCooldown) == Accepted
    ensures WithdrawalOutcome(p, balance, contractedOn, None, balance + 1, contractedOn + p.initialCooldown) ==
      Rejected(InsufficientBalance(balance))
    ensures WithdrawalOutcome(p, balance, contractedOn, None, balance, contractedOn + p.initialCooldown - 1) ==
      Rejected(InitialCooldown(p.initialCooldown))
  {
    WithdrawalChecksInOrder(p, balance, contractedOn, None, balance, contractedOn + p.initialCooldown);
    WithdrawalChecksInOrder(p, balance, contractedOn, None, balance + 1, contractedOn + p.initialCooldown);
    WithdrawalChecksInOrder(p, balance, contractedOn, None, balance, contractedOn + p.initialCooldown - 1);
  }

  /** Once a withdrawal on some plan has stamped the product with today's date, a withdrawal the same
      day on any plan of that product is refused when the product has a positive cooldown between
      withdrawals; if that plan passes the earlier checks, the refusal is the cooldown itself. */
  lemma SameDayWithdrawalRefused(p: Product, balance: Cents, contractedOn: Day, amount: Cents, today: Day)
    requires p.betweenCooldown > 0
    ensures WithdrawalOutcome(p, balance, contractedOn, Some(today), amount, today).Rejected?
    ensures amount <= balance && today - contractedOn >= p.initialCooldown ==>
      WithdrawalOutcome(p, balance, contractedOn, Some(today), amount, today) ==
        Rejected(BetweenWithdrawalsCooldown(p.betweenCooldown))
  {
    WithdrawalChecksInOrder(p, balance, contractedOn, Some(today), amount, today);
  }

  /** Since a withdrawal leaves the balance as it was, repeating an accepted withdrawal later is
      refused only by the cooldown between withdrawals, never by the balance or the initial cooldown. */
  lemma RepeatedWithdrawalOnlyCooldownBlocks(p: Product, balance: Cents, contractedOn: Day, last: Option<Day>,
                                             amount: Cents, first: Day, again: Day)
    requires WithdrawalOutcome(p, balance, contractedOn, last, amount, first) == Accepted
    requires first <= again
    ensures WithdrawalOutcome(p, balance, contractedOn, Some(first), amount, again) ==
      if again - first < p.betweenCooldown then Rejected(BetweenWithdrawalsCooldown(p.betweenCooldown)) else Accepted
  {
    WithdrawalChecksInOrder(p, balance, contractedOn, last, amount, first);
    WithdrawalChecksInOrder(p, balance, contractedOn, Some(first), amount, again);
  }
}
