# Savings-plan rule engine (brasilPrev) in Dafny

This project models the business rules of a savings-plan service. A client contracts a plan on a
product (`ContratacaoPlano`), tops it up with extra contributions (`AporteExtra`) and asks for
withdrawals (`Resgate`). Each of the three records is validated inside its own `save` override
before it is persisted. The checks run in a fixed order, and the first that fails raises the
validation error. The product's "last withdrawal date" (`dataUltimoResgate`) is shared by every
plan of that product.

Modelling choices:

- Money is a whole number of cents (`Cents`). The source uses two-decimal fields.
- Dates are day numbers (`Day`), so `(a - b).days` becomes `a - b`.
- The withdrawal date, which the source reads from the system clock, is a `today` parameter.
- Errors are the variants of `Outcomes.Error`. Each variant carries the values its message is
  formatted with: the minimum, both age bounds, the current balance, or the cooldown length.
- Age follows `int(round(days / 365.242189, 1))` in exact integer arithmetic. For a non-negative
  day count this is `(20000000 * days + 365242189) / 7304843780`. For a negative count it is the
  negated value, because `int` truncates toward zero.
- `Models.Product` and `Models.Plan` are classes. The fields the rules never change are `const`.
  `lastWithdrawal` (`dataUltimoResgate`) and `balance` (`aporte`) are `var`.
- `Models.Database` holds the persisted tables as sequences. Its three save methods validate with
  `if`/`return` guards, as the source does. Each method's `ensures` ties the result to a
  specification function (`EnrollmentOutcome`, `ExtraContributionOutcome`, `WithdrawalOutcome`).
  Each of those functions is built from `Outcomes.FirstFailure` over its list of checks.
- `Database.Valid()` is the invariant every save keeps. Its per-plan part is `Models.Consistent`:
  - every persisted plan was accepted when it was contracted;
  - a plan's balance is its initial contribution plus its recorded extra contributions, because a
    withdrawal never lowers it;
  - with its current balance, every plan would still pass its own checks;
  - every record refers to a persisted plan.

Behaviours of the source worth noting, which the model keeps:

- A withdrawal does not lower the plan's balance. `Resgate.save` only stamps the product's date.
  The repository's integration test relies on this: its second withdrawal of the whole balance
  expects the between-withdrawals cooldown error, not the balance error.
  `RepeatedWithdrawalOnlyCooldownBlocks` states the consequence.
- `AporteExtra.save` calls `plano.save()`, which runs `ContratacaoPlano.save` again on the
  increased balance. An extra contribution is therefore also refused by any of the plan's own
  checks that the plan no longer passes. In the model, product parameters never change and every
  persisted plan passed those checks with its current balance. There, only a negative amount,
  allowed when the extra minimum is negative, can be refused this way, with the initial-minimum
  error. In the source, a product edited after the plan was contracted (a later sale expiration
  moved before the contract date, a higher minimum, a narrower age window) makes this re-save
  refuse every extra contribution; see "Left out".
- No balance, amount or limit is checked to be non-negative. The source declares no validator for
  that, so all of them are unbounded integers.

## Model

| member | source | states |
|---|---|---|
| `Outcomes.FirstFailure` | api/models.py:88-105 | A sequence of guarded checks is accepted exactly when none of them fails; a rejection carries the error of a failing check |
| `Outcomes.FirstFailureAt` | api/models.py:88-105 | When check k fails and all earlier checks pass, the outcome is check k's error: the first failure decides and later checks are never consulted |
| `Outcomes.FirstFailureSkipsPassed` | api/models.py:117-124 | Checks that pass decide nothing; the outcome is that of the checks after them (used for the plan checks re-run after the extra minimum) |
| `Models.RoundedYearsBounds` | api/models.py:38-40 | The year count n computed for a non-negative number of days satisfies n - 0.05 <= days / 365.242189 < n + 0.95, i.e. it is the year count rounded to one decimal and then truncated |
| `Models.AgeIsTruncatedRoundedYears` | api/models.py:38-40 | A client's age on a date is the elapsed years rounded to one decimal and then truncated toward zero, for dates both after and before the birth date |
| `Models.Product.constructor` | api/models.py:43-54 | A product holds its sale expiration, both minimum contributions, both age bounds and both cooldowns, and starts with no last withdrawal date |
| `Models.Plan.constructor` | api/models.py:75-80 | An unsaved plan links a client and a product, with the initial contribution as its balance and its contract date |
| `Models.ValidatePlan` | api/models.py:88-103 | The plan's save checks, run as guards in the source's order, give exactly the outcome of the enrollment specification for the balance, contract date and the client's age on that date |
| `Models.Client.Age` | api/models.py:38-40 | The client's age on a date; `AgeIsTruncatedRoundedYears` states it as the elapsed years rounded to one decimal and truncated toward zero |
| `Models.Product.SaleExpired` | api/models.py:59-60 | The sale has expired on a date after the expiration date; `EnrollmentChecksInOrder` states acceptance with `on <= saleExpiration` |
| `Models.Product.BelowMinimumInitial` | api/models.py:62-63 | An amount under the minimum initial contribution; `EnrollmentChecksInOrder` states acceptance with `contribution >= minInitial` |
| `Models.Product.BelowMinimumExtra` | api/models.py:65-66 | An amount under the minimum extra contribution; `ExtraContributionChecksInOrder` states refusal exactly when `amount < minExtra` |
| `Models.Product.TooYoung` | api/models.py:68-69 | An age under the entry age; `EnrollmentChecksInOrder` states acceptance with `entryAge <= age` |
| `Models.Product.TooOld` | api/models.py:71-72 | An age over the exit age; `EnrollmentChecksInOrder` states acceptance with `age <= exitAge` |
| `Models.Plan.WithdrawalDenied` | api/models.py:85-86 | A withdrawal above the plan's balance; `WithdrawalChecksInOrder` states refusal with the balance exactly when `amount > balance` |
| `Models.EnrollmentOutcome` | api/models.py:88-103 | The outcome of the plan's save checks in their order; `EnrollmentChecksInOrder` characterises it for every input and `ValidatePlan` and `Database.ContractPlan` are proved equal to it |
| `Models.ExtraContributionOutcome` | api/models.py:117-124 | The extra-minimum check followed by the plan's own checks on the increased balance; `ExtraContributionChecksInOrder` characterises it and `Database.SaveExtraContribution` is proved equal to it |
| `Models.WithdrawalOutcome` | api/models.py:136-146 | The outcome of the withdrawal checks in their order; `WithdrawalChecksInOrder` characterises it for every input and `Database.SaveWithdrawal` is proved equal to it |
| `Models.Database.ContractPlan` | api/models.py:88-105 | Contracting yields the enrollment outcome; the plan is appended to the persisted plans only when accepted, nothing else changes, and the database invariant is kept |
| `Models.Database.SaveExtraContribution` | api/models.py:117-125 | Yields the extra-contribution outcome; when accepted the plan's balance grows by exactly the amount and the record is appended, otherwise balance and records are unchanged; no other plan changes and the invariant is kept |
| `Models.Database.SaveWithdrawal` | api/models.py:136-150 | Yields the withdrawal outcome given the product's previous last withdrawal date; when accepted the product's date becomes today and the record is appended, otherwise the date is unchanged; no plan balance changes |
| `ModelLemmas.EnrollmentChecksInOrder` | api/models.py:88-103 | An expired sale is reported first, then a contribution under the minimum (with the minimum), then an age outside the window (with both bounds); acceptance holds exactly when the date is on or before expiration, the contribution reaches the minimum and the age lies within both inclusive bounds |
| `ModelLemmas.EnrollmentBoundariesInclusive` | api/models.py:59-72 | The expiration day itself is accepted and the next day is refused; the minimum itself is enough and one cent less is refused; ages equal to either bound are accepted |
| `ModelLemmas.AgeViolationsShareOneError` | api/models.py:95-103 | A client too young and a client too old get one and the same error, carrying both bounds |
| `ModelLemmas.ExtraContributionChecksInOrder` | api/models.py:117-124 | For a plan that passes its own checks, an extra contribution is refused with the extra minimum exactly when under it, otherwise with the initial minimum when the new balance would fall under it, and is accepted otherwise |
| `ModelLemmas.ExtraContributionBoundaryInclusive` | api/models.py:65-66 | With a non-negative extra minimum, contributing exactly the minimum is accepted and one cent less is refused |
| `ModelLemmas.WithdrawalChecksInOrder` | api/models.py:136-146 | An amount above the balance is reported first (with the balance), then the initial cooldown, then the between-withdrawals cooldown, which applies only when a last withdrawal date is set (each with its length); acceptance holds exactly when all three pass |
| `ModelLemmas.WithdrawalBoundariesInclusive` | api/models.py:140-143 | Withdrawing exactly the balance passes and one cent more is refused; the initial cooldown is over exactly that many days after contracting and not a day earlier |
| `ModelLemmas.SameDayWithdrawalRefused` | api/models.py:144-149 | Once the product has been stamped with today, any withdrawal that day on any plan of the product is refused when its between-withdrawals cooldown is positive, and by that cooldown when the earlier checks pass |
| `ModelLemmas.RepeatedWithdrawalOnlyCooldownBlocks` | api/models.py:140-150 | Repeating an accepted withdrawal later on the same plan is refused only by the between-withdrawals cooldown, never by the balance or the initial cooldown, because the balance is not lowered |
| `Scenarios.TestProduct` | api/tests/tests_unit.py:20-25 | The test product: minimums 2500.00 and 200.00, ages 18 to 65, cooldowns 90 and 30 days, no last withdrawal |
| `Scenarios.TestClientAges` | api/tests/tests_unit.py:60-72 | The client born 1991-10-22 is 9 on 2000-10-22, 31 on 2022-10-22, 65 on 2056-10-22 and 66 on 2057-10-22 |
| `Scenarios.EnrollmentScenario` | api/tests/tests_integration.py:96-102 | Contracting with the minimum on 2022-09-15 is accepted with a balance of 2500.00 |
| `Scenarios.EnrollmentRefusalScenario` | api/tests/tests_integration.py:104-123 | The day after expiration is refused with the sale-expired error, 2499.99 with the minimum 2500.00, and no plan is persisted |
| `Scenarios.AgeRefusalScenario` | api/tests/tests_integration.py:125-151 | Clients aged 0 and 81 are both refused with the age error carrying 18 and 65 |
| `Scenarios.ExtraContributionScenario` | api/tests/tests_integration.py:166-181 | An extra contribution of 200.00 is accepted and 199.99 is refused with the minimum 200.00; the balance ends at 2700.00 |
| `Scenarios.InitialCooldownScenario` | api/tests/tests_integration.py:216-238 | Withdrawing the whole balance on the contract day is refused with the 90-day cooldown; a cent more than the balance is refused with the balance 2500.00 |
| `Scenarios.RepeatedWithdrawalScenario` | api/tests/tests_integration.py:240-255 | A second withdrawal of the whole balance the same day is refused with the 30-day cooldown, and the balance is still 2500.00 |
| `Scenarios.SharedCooldownScenario` | api/models.py:144-149 | After a withdrawal on one plan, a withdrawal the same day on another client's plan of the same product is refused with the 30-day cooldown |

## Left out

- Floating point in the age formula: the model divides exactly. A day count whose year count falls
  within binary-float error of a rounding tie may round differently in the source.
- The system clock (`date.today()`): the withdrawal date is a parameter. The clock-valued defaults
  of `get_idade` and `venda_expirada` are not used by the core.
- Persistence by the database layer: loading records by id, dangling references (not found), UUID
  generation, the uniqueness of `cpf` and `email`, and the refusal to delete referenced rows.
  Persisted rows are the sequences of `Models.Database`.
- Models.Database.ContractPlan: requires a plan that is not yet persisted. The source also saves
  a persisted plan again with new field values, through the update actions of
  `ContratacaoPlanoViewSet` (api/views.py:30-37) and the admin (api/admin.py:24-28); such an
  update re-runs the same checks, but row updates are not modelled. The only re-save modelled is
  the one `SaveExtraContribution` performs.
- Updates of a product after plans were contracted, through `ProdutosViewSet` (api/views.py:25-27)
  or the admin (api/admin.py:14-22): a product's parameters are `const` in `Models.Product`. The
  invariant that every persisted plan still passes its own checks (`Models.Consistent`), and with
  it the requires of `ExtraContributionChecksInOrder`, relies on this. In the source such an edit
  can make every later extra contribution on an existing plan fail its re-save.
- The in-memory plan instance after a refused re-save: `AporteExtra.save` adds the amount to
  `plano.aporte` (api/models.py:123) before `plano.save()` can raise, so the caller's instance is
  left increased although the stored row is not. `Models.Plan.balance` is the persisted balance,
  which `SaveExtraContribution` leaves unchanged on refusal.
- Transactions and row locking between concurrent requests: the core has no concurrency.
- The views, serializers, URL routing, admin registration and the HTTP error handler: they are
  framework configuration. `api/error_messages.py` is not part of this model, so errors carry
  their format arguments instead of message strings.
- The client's other fields (`cpf`, `nome`, `email`, `sexo`, `rendaMensal`), the product's `nome`
  and `susep`, and the `__str__` methods: no rule reads them.
- The 12-digit limit of the money columns: amounts are unbounded integers.
- The float amounts the tests pass (`2500.00 - 0.1`, say): amounts are exact cents.
