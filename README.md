# Pix transfers and deposits of the `banco` service

This project models the money-moving core of a small Spring banking service:

- the Pix transfer (`Pix.executar`) between two accounts;
- the deposit (`Deposito.executar`) into one account;
- the account's two balance primitives they rely on, `saque` (debit) and
  `deposito` (credit).

A balance is a `BigDecimal` held at two decimals. In the model it is a whole
number of cents. An amount is an exact decimal: an unscaled integer and a
scale, as a `BigDecimal` holds it. Every new balance is the exact result of
`balance - amount` or `balance + amount`, rounded to cents with ties going to
the even cent.

The files are:

- `decimals.dfy` (module `Decimals`): exact decimals, addition and
  subtraction, and half-even rounding to cents.
- `accounts.dfy` (module `Accounts`): accounts, the error kinds (one per
  exception class) and the `Credit`/`Debit` primitives.
- `repository.dfy` (module `Repository`): the account repository as a class
  over a table from account number to balance. `findContaByNumeroConta` and
  `save` are its methods. A ghost log records every save, in order.
- `pix.dfy` (module `Transfers`): the specification function `Transfer`, and
  the class `Pix` whose `Execute` method performs it step by step against the
  repository.
- `deposit.dfy` (module `Deposits`): the specification function `Deposit` and
  the class `DepositService`, in the same way.
- `scenarios.dfy` (module `Scenarios`): the test suites' literal cases, each
  proved about the specification functions, and one further case
  (`TransferLosesACent`) that follows from the model's rounding, not from a
  test.

## Model

| member | source | states |
|---|---|---|
| Decimals.Round2 | src/test/java/tech/ada/banco/services/PixTest.java:203-285 | the result is the nearest cent to the exact decimal, the even cent on a tie |
| Decimals.DivHalfEven | src/test/java/tech/ada/banco/services/DepositoTest.java:86-123 | dividing n by m gives the nearest integer quotient, the even one on a tie |
| Decimals.NearestHalfEvenUnique | src/test/java/tech/ada/banco/services/DepositoTest.java:106-123 | half-even rounding is a function: two quotients that both satisfy it are equal |
| Decimals.RoundsToUnique | src/test/java/tech/ada/banco/services/DepositoTest.java:106-123 | a decimal rounds to exactly one cent value |
| Decimals.AddIsExact | src/test/java/tech/ada/banco/services/DepositoTest.java:63-83 | the sum of two decimals, written at any common scale, is the sum of their unscaled values at that scale |
| Decimals.SubIsExact | src/test/java/tech/ada/banco/services/PixTest.java:140-201 | the difference of two decimals, written at any common scale, is the difference of their unscaled values at that scale |
| Decimals.MovedWithinOneCent | src/main/java/tech/ada/banco/services/Pix.java:30-33 | taking an amount off one balance and adding it to another, each rounded to cents, changes their sum by at most one cent |
| Accounts.Credit | src/test/java/tech/ada/banco/services/DepositoTest.java:41-123 | `deposito` fails with InvalidAmount exactly when the amount is negative; otherwise the new balance is balance + amount rounded half-even to cents, and is never below the old balance |
| Accounts.Debit | src/test/java/tech/ada/banco/services/PixTest.java:93-180 | `saque` fails with InvalidAmount exactly when the amount is negative, and with InsufficientFunds exactly when a non-negative amount exceeds the balance; otherwise the new balance is balance - amount rounded half-even, between 0 and the old balance |
| Accounts.CreditCannotFailAfterDebit | src/main/java/tech/ada/banco/services/Pix.java:30-32 | once the source's debit succeeded, the destination's credit of the same amount cannot fail, so nothing is saved for the source alone |
| Accounts.CreditOfWholeCents | src/test/java/tech/ada/banco/services/DepositoTest.java:53-83 | an amount with at most two decimals is credited exactly: balance + amount in cents |
| Accounts.DebitOfWholeCents | src/test/java/tech/ada/banco/services/PixTest.java:140-201 | a successful debit of an amount with at most two decimals is exact: balance - amount in cents |
| Accounts.CreditOfFineAmount | src/test/java/tech/ada/banco/services/DepositoTest.java:86-123 | an amount with more decimals is credited as the half-even nearest cent to balance + amount, computed at the amount's scale |
| Accounts.DebitOfFineAmount | src/test/java/tech/ada/banco/services/PixTest.java:203-285 | a covered debit of an amount with more decimals gives the half-even nearest cent to balance - amount |
| Accounts.DebitOfWholeBalance | src/test/java/tech/ada/banco/services/PixTest.java:161-180 | debiting an amount equal to the whole balance, at any scale, leaves exactly 0 |
| Accounts.CreditOfSameValue | src/test/java/tech/ada/banco/services/PixTest.java:161-180 | crediting an amount worth a whole number of cents, at any scale, adds exactly that number |
| Repository.AccountRepository.constructor | src/test/java/tech/ada/banco/services/PixTest.java:23 | the repository starts holding exactly the given accounts, with nothing saved yet, as the suites' stubbed repository does |
| Repository.AccountRepository.FindByNumber | src/main/java/tech/ada/banco/services/Pix.java:27-28 | an account is found exactly when its number is in the table, with its stored balance |
| Repository.AccountRepository.Save | src/main/java/tech/ada/banco/services/Pix.java:31-33 | saving stores the account's balance under its number, changes no other account, and logs the save |
| Transfers.Transfer | src/main/java/tech/ada/banco/services/Pix.java:22-36 | the same account gives SameAccount before any lookup; a missing source or destination gives AccountNotFound; a negative amount gives InvalidAmount; an amount above the source balance gives InsufficientFunds; a failure saves and changes nothing; a success saves the debited source, then the credited destination, returns the source's new balance and changes no other account; no account is ever overdrawn |
| Transfers.Pix.constructor | src/main/java/tech/ada/banco/services/Pix.java:18-20 | the service holds the repository it was given |
| Transfers.Pix.Execute | src/main/java/tech/ada/banco/services/Pix.java:22-36 | performing the steps in the source's order gives exactly the result, balances and save sequence `Transfer` specifies, and keeps the no-overdraft invariant |
| Transfers.TransferOfWholeCents | src/test/java/tech/ada/banco/services/PixTest.java:140-201 | an amount with at most two decimals leaves the source exactly that much lower and the destination exactly that much higher; the total is conserved |
| Transfers.TransferWithinOneCent | src/main/java/tech/ada/banco/services/Pix.java:30-33 | with any amount, the two balances together change by at most one cent |
| Transfers.TransferOfWholeBalance | src/test/java/tech/ada/banco/services/PixTest.java:161-180 | sending the source's whole balance empties it and adds exactly that balance to the destination |
| Deposits.Deposit | src/test/java/tech/ada/banco/services/DepositoTest.java:24-123 | an unknown account gives AccountNotFound; a negative amount gives InvalidAmount; every other deposit succeeds; a failure saves and changes nothing; a success saves the credited account once, returns its new balance and changes no other account; no account is ever overdrawn |
| Deposits.DepositService.constructor | src/test/java/tech/ada/banco/services/DepositoTest.java:21 | the service holds the repository it was given |
| Deposits.DepositService.Execute | src/test/java/tech/ada/banco/services/DepositoTest.java:24-123 | looking up, crediting and saving gives exactly the result, balances and save sequence `Deposit` specifies, and keeps the no-overdraft invariant |
| Deposits.ConsecutiveDepositsAccumulate | src/test/java/tech/ada/banco/services/DepositoTest.java:63-73 | two deposits of amounts with at most two decimals add up exactly |
| Scenarios.TransferBetween | src/main/java/tech/ada/banco/services/Pix.java:22-36 | between two distinct accounts, a transfer whose two legs succeed returns the debited balance and saves the debited source, then the credited destination |
| Scenarios.DepositInto | src/test/java/tech/ada/banco/services/DepositoTest.java:53-123 | a deposit whose credit succeeds returns the new balance and saves the account once |
| Scenarios.PixRefusedLookups | src/test/java/tech/ada/banco/services/PixTest.java:26-91 | with only account 10, transfers 1→2, 1→10 and 10→1 give AccountNotFound and 10→10 gives SameAccount, all changing nothing |
| Scenarios.PixRefusedAmounts | src/test/java/tech/ada/banco/services/PixTest.java:93-137 | -10 gives InvalidAmount and 5 from an empty account gives InsufficientFunds, both changing nothing |
| Scenarios.PixPartialLegs | src/test/java/tech/ada/banco/services/PixTest.java:141-159 | 6 debited from 10.00 leaves 4.00, and credited to 0.00 gives 6.00 |
| Scenarios.PixPartial | src/test/java/tech/ada/banco/services/PixTest.java:141-159 | sending 6 from 10.00 to 0.00 gives 4.00 and 6.00 |
| Scenarios.PixTwoDecimalsLegs | src/test/java/tech/ada/banco/services/PixTest.java:182-201 | 4.37 debited from 10.00 leaves 5.63, and credited to 0.00 gives 4.37 |
| Scenarios.PixTwoDecimals | src/test/java/tech/ada/banco/services/PixTest.java:182-201 | sending 4.37 from 10.00 to 0.00 gives 5.63 and 4.37 |
| Scenarios.PixRoundsUpLegs | src/test/java/tech/ada/banco/services/PixTest.java:203-222 | 4.379 debited from 10.00 leaves 5.62, and credited to 0.00 gives 4.38 |
| Scenarios.PixRoundsUp | src/test/java/tech/ada/banco/services/PixTest.java:203-222 | sending 4.379 gives 5.62 and 4.38 |
| Scenarios.PixRoundsDownLegs | src/test/java/tech/ada/banco/services/PixTest.java:224-243 | 4.371 debited from 10.00 leaves 5.63, and credited to 0.00 gives 4.37 |
| Scenarios.PixRoundsDown | src/test/java/tech/ada/banco/services/PixTest.java:224-243 | sending 4.371 gives 5.63 and 4.37 |
| Scenarios.PixTieOnOddCentLegs | src/test/java/tech/ada/banco/services/PixTest.java:245-264 | 4.375 debited from 10.00 leaves 5.62, and credited to 0.00 gives 4.38: both ties go to the even cent |
| Scenarios.PixTieOnOddCent | src/test/java/tech/ada/banco/services/PixTest.java:245-264 | sending 4.375 gives 5.62 and 4.38 |
| Scenarios.PixTieOnEvenCentLegs | src/test/java/tech/ada/banco/services/PixTest.java:266-285 | 4.365 debited from 10.00 leaves 5.64, and credited to 0.00 gives 4.36: both ties go to the even cent |
| Scenarios.PixTieOnEvenCent | src/test/java/tech/ada/banco/services/PixTest.java:266-285 | sending 4.365 gives 5.64 and 4.36 |
| Scenarios.PixControllerPartialLegs | src/test/java/tech/ada/banco/controller/PixControllerTest.java:139-159 | 3 debited from 10.00 leaves 7.00, and credited to 0.00 gives 3.00 |
| Scenarios.PixControllerPartial | src/test/java/tech/ada/banco/controller/PixControllerTest.java:139-159 | sending 3 gives 7.00 and 3.00 |
| Scenarios.PixControllerTwoDecimalsLegs | src/test/java/tech/ada/banco/controller/PixControllerTest.java:187-207 | 2.35 debited from 10.00 leaves 7.65, and credited to 0.00 gives 2.35 |
| Scenarios.PixControllerTwoDecimals | src/test/java/tech/ada/banco/controller/PixControllerTest.java:187-207 | sending 2.35 gives 7.65 and 2.35 |
| Scenarios.PixControllerRoundsUpLegs | src/test/java/tech/ada/banco/controller/PixControllerTest.java:211-231 | 2.359 debited from 10.00 leaves 7.64, and credited to 0.00 gives 2.36 |
| Scenarios.PixControllerRoundsUp | src/test/java/tech/ada/banco/controller/PixControllerTest.java:211-231 | sending 2.359 gives 7.64 and 2.36 |
| Scenarios.PixControllerRoundsDownLegs | src/test/java/tech/ada/banco/controller/PixControllerTest.java:234-254 | 2.351 debited from 10.00 leaves 7.65, and credited to 0.00 gives 2.35 |
| Scenarios.PixControllerRoundsDown | src/test/java/tech/ada/banco/controller/PixControllerTest.java:234-254 | sending 2.351 gives 7.65 and 2.35 |
| Scenarios.PixControllerTieOnOddCentLegs | src/test/java/tech/ada/banco/controller/PixControllerTest.java:257-277 | 2.355 debited from 10.00 leaves 7.64, and credited to 0.00 gives 2.36 |
| Scenarios.PixControllerTieOnOddCent | src/test/java/tech/ada/banco/controller/PixControllerTest.java:257-277 | sending 2.355 gives 7.64 and 2.36 |
| Scenarios.PixControllerTieOnEvenCentLegs | src/test/java/tech/ada/banco/controller/PixControllerTest.java:280-300 | 2.365 debited from 10.00 leaves 7.64, and credited to 0.00 gives 2.36 |
| Scenarios.PixControllerTieOnEvenCent | src/test/java/tech/ada/banco/controller/PixControllerTest.java:280-300 | sending 2.365 gives 7.64 and 2.36 |
| Scenarios.PixControllerRefusedAmounts | src/test/java/tech/ada/banco/controller/PixControllerTest.java:98-134 | -3 gives InvalidAmount and 10 from an empty account gives InsufficientFunds, both changing nothing |
| Scenarios.TransferLosesACentLegs | src/main/java/tech/ada/banco/services/Pix.java:30-32 | under the round-once reading of `saque`/`deposito`, 0.005 debited from 10.01 leaves 10.00, and credited to 0.00 gives 0.00 |
| Scenarios.TransferLosesACent | src/main/java/tech/ada/banco/services/Pix.java:30-33 | under the same reading (no test shows it), sending 0.005 from 10.01 to 0.00 succeeds and the two balances together lose a cent, the most `TransferWithinOneCent` allows |
| Scenarios.DepositRefused | src/test/java/tech/ada/banco/services/DepositoTest.java:24-50 | a deposit to an unknown account gives AccountNotFound and a negative one gives InvalidAmount, both changing nothing; the controller suite's 3.7 to 9999 and -3.7 cases alike |
| Scenarios.DepositWhole | src/test/java/tech/ada/banco/services/DepositoTest.java:53-60 | depositing 12 into 0.00 gives 12.00 |
| Scenarios.DepositsConsecutive | src/test/java/tech/ada/banco/services/DepositoTest.java:63-73 | depositing 10 then 17 gives 10.00 then 27.00 |
| Scenarios.DepositTwoDecimals | src/test/java/tech/ada/banco/services/DepositoTest.java:76-83 | depositing 12.27 gives 12.27 |
| Scenarios.DepositRoundsUp | src/test/java/tech/ada/banco/services/DepositoTest.java:86-93 | depositing 12.279 gives 12.28 |
| Scenarios.DepositRoundsDown | src/test/java/tech/ada/banco/services/DepositoTest.java:96-103 | depositing 12.2709 gives 12.27 |
| Scenarios.DepositTieOnOddCent | src/test/java/tech/ada/banco/services/DepositoTest.java:106-113 | depositing 10.275 gives 10.28 |
| Scenarios.DepositTieOnEvenCent | src/test/java/tech/ada/banco/services/DepositoTest.java:116-123 | depositing 10.265 gives 10.26 |
| Scenarios.DepositControllerWhole | src/test/java/tech/ada/banco/controller/DepositoControllerTest.java:55-71 | depositing 3 into 0.00 gives 3.00 |
| Scenarios.DepositControllerConsecutive | src/test/java/tech/ada/banco/controller/DepositoControllerTest.java:74-106 | depositing 4.3 then 7.1 gives 4.30 then 11.40 |
| Scenarios.DepositControllerOneDecimal | src/test/java/tech/ada/banco/controller/DepositoControllerTest.java:109-125 | depositing 3.7 gives 3.70 |
| Scenarios.DepositControllerRoundsUp | src/test/java/tech/ada/banco/controller/DepositoControllerTest.java:128-144 | depositing 3.799 gives 3.80 |
| Scenarios.DepositControllerRoundsDown | src/test/java/tech/ada/banco/controller/DepositoControllerTest.java:147-163 | depositing 3.612 gives 3.61 |
| Scenarios.DepositControllerRoundsDownBelowHalf | src/test/java/tech/ada/banco/controller/DepositoControllerTest.java:166-182 | depositing 5.651 gives 5.65 (not a tie) |
| Scenarios.DepositControllerRoundsUpAboveHalf | src/test/java/tech/ada/banco/controller/DepositoControllerTest.java:185-201 | depositing 2.458 gives 2.46 (not a tie) |

## Left out

- The source of `Conta` (with `saque` and `deposito`) and of the `Deposito`
  service is not part of this model. The contracts of `saque`, `deposito` and
  the deposit service are read off their test suites.
- Accounts.Credit, Accounts.Debit: rounding is applied once, to the exact
  `balance ± amount`. The unseen `Conta` might round the amount first and then
  add. The two readings agree on every literal case in the test suites.
  `Scenarios.TransferLosesACent`, and the one cent of slack in
  `Transfers.TransferWithinOneCent` and `Decimals.MovedWithinOneCent`, depend
  on this reading: if the amount were rounded first, 0.005 would move nothing
  and 10.01 would be kept whole.
- Accounts.Credit, Accounts.Debit: an amount of zero is accepted and changes
  nothing. Only a negative amount is refused. No test uses a zero amount, and
  the accounts' own code is not part of this model.
- Half-even tie-breaking fits every tie in the suites (2.355, 2.365, 4.375,
  4.365, 10.275, 10.265) on both the debited and the credited side.
- The test cases "total" (10 of 10.00, `PixTest.java:162-180` and
  `PixControllerTest.java:163-183`) have no literal scenario lemma: the
  solver runs out of resource on the assembled literal transfer.
  `Transfers.TransferOfWholeBalance` states them for every balance and every
  scale of the amount.
- The controller cases for a missing account use generated account numbers.
  They are the same rule as `Scenarios.PixRefusedLookups` and are not repeated.
- The result's `BigDecimal` scale (for example `0` against `0.00`) is not
  modelled: a balance is a number of cents. Negative scales and a `null`
  amount are not modelled.
- Turning a `double` or request string into a `BigDecimal` is not modelled.
  Each literal amount is taken as the decimal it is written as.
- The credit of the destination cannot fail once the source's debit
  succeeded. So the source-only save that an exception after line 31 of
  `Pix.java` would leave is unreachable, and the model has no branch for it.
- HTTP routing and status codes, Spring wiring, logging (`Pix.java:34`),
  transactions and database durability, and concurrent requests are not
  modelled. The repository is an in-memory table.
- The account category (`ModalidadeConta`) plays no part in these operations
  and is not modelled.
