/** Validation errors raised by the save overrides of the savings-plan models, and
    the "run the checks in order, the first failing one decides" discipline they share. */
module Outcomes {

  /** A calendar date as a day number, so that `(a - b).days` is `a - b`. */
  type Day = int

  /** A two-decimal amount of money as a whole number of cents. */
  type Cents = int

  datatype Option<+T> = None | Some(value: T)

  /** One variant per message of the rule engine, carrying the values that message is formatted with. */
  datatype Error =
    | SaleExpired                                  // the product's sale period has ended
    | BelowMinimumInitial(minimum: Cents)          // initial contribution under the product minimum
    | AgeOutOfRange(entryAge: int, exitAge: int)   // client age outside the product's age window
    | BelowMinimumExtra(minimum: Cents)            // extra contribution under the product minimum
    | InsufficientBalance(balance: Cents)          // withdrawal above the plan balance
    | InitialCooldown(days: int)                   // too soon after contracting
    | BetweenWithdrawalsCooldown(days: int)        // too soon after the product's last withdrawal

  /** What a save override ends in: the record is persisted, or a validation error is raised. */
  datatype Outcome = Accepted | Rejected(error: Error)

  /** A guard of a save override: whether it fails, and the error it raises if it does. */
  datatype Check = Check(fails: bool, error: Error)

  /** Runs the checks in order and stops at the first that fails. */
  function FirstFailure(checks: seq<Check>): (r: Outcome)
    ensures r.Accepted? <==> forall i :: 0 <= i < |checks| ==> !checks[i].fails
    ensures r.Rejected? ==> exists i :: 0 <= i < |checks| && checks[i].fails && checks[i].error == r.error
  {
    if checks == [] then Accepted
    else if checks[0].fails then Rejected(checks[0].error)
    else
      var rest := FirstFailure(checks[1..]);
      assert forall i :: 1 <= i < |checks| ==> checks[i] == checks[1..][i - 1];
      rest
  }

  /** The error raised is exactly that of the first failing check: every check before it passed. */
  lemma {:induction false} FirstFailureAt(checks: seq<Check>, k: nat)
    requires k < |checks| && checks[k].fails
    requires forall j :: 0 <= j < k ==> !checks[j].fails
    ensures FirstFailure(checks) == Rejected(checks[k].error)
  {
    if k > 0 {
      assert !checks[0].fails;
      FirstFailureAt(checks[1..], k - 1);
    }
  }

  /** Checks that pass do not decide anything: the outcome is that of the checks after them. */
  lemma {:induction false} FirstFailureSkipsPassed(checks: seq<Check>, k: nat)
    requires k <= |checks|
    requires forall j :: 0 <= j < k ==> !checks[j].fails
    ensures FirstFailure(checks) == FirstFailure(checks[k..])
  {
    if k > 0 {
      assert !checks[0].fails;
      FirstFailureSkipsPassed(checks[1..], k - 1);
      assert checks[1..][k - 1..] == checks[k..];
    }
  }
}
