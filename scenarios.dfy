/**
 * The concrete cases of the test suites, stated against the specification
 * functions, and one case the model's rounding implies (`TransferLosesACent`).
 * Balances are in cents; amounts are written as they arrive, so 4.365 is
 * Decimal(4365, 3) and BigDecimal.TEN is Decimal(10, 0).
 *
 * Each successful transfer is split in two: a lemma that pins down its two
 * legs (the debit of the source and the credit of the destination) and the
 * case itself, which `TransferBetween` assembles from those legs.
 */
module Scenarios {
  import opened Decimals
  import opened Accounts
  import opened Transfers
  import opened Deposits

  /** A transfer between two accounts whose debit and credit go through. */
  lemma TransferBetween(source: AccountNumber, destination: AccountNumber, from: Cents, to: Cents,
                        amount: Decimal, newSource: Cents, newDestination: Cents)
    requires source != destination
    requires Debit(from, amount) == Success(newSource) && Credit(to, amount) == Success(newDestination)
    ensures Transfer(map[source := from, destination := to], source, destination, amount) ==
      Effect(Success(newSource), map[source := newSource, destination := newDestination],
             [Account(source, newSource), Account(destination, newDestination)])
  {
    var start := map[source := from, destination := to];
    assert start[source] == from && start[destination] == to;
    assert start[source := newSource][destination := newDestination] == map[source := newSource, destination := newDestination];
  }

  /** A deposit into a one-account table whose credit goes through. */
  lemma DepositInto(number: AccountNumber, balance: Cents, amount: Decimal, c: Cents)
    requires Credit(balance, amount) == Success(c)
    ensures Deposit(map[number := balance], number, amount) == Effect(Success(c), map[number := c], [Account(number, c)])
  {
    assert map[number := balance][number := c] == map[number := c];
  }

  // ---------------------------------------------------------------------------
  // PixTest: account 10 holds 10.00 and account 5 holds 0.00
  // ---------------------------------------------------------------------------

  /** Any missing account, or a transfer to itself, is refused before anything is saved. */
  lemma PixRefusedLookups()
    ensures Transfer(map[10 := 0], 1, 2, Decimal(1, 0)) == Effect(Failure(AccountNotFound), map[10 := 0], [])
    ensures Transfer(map[10 := 0], 1, 10, Decimal(1, 0)) == Effect(Failure(AccountNotFound), map[10 := 0], [])
    ensures Transfer(map[10 := 0], 10, 1, Decimal(1, 0)) == Effect(Failure(AccountNotFound), map[10 := 0], [])
    ensures Transfer(map[10 := 0], 10, 10, Decimal(1, 0)) == Effect(Failure(SameAccount), map[10 := 0], [])
  {
  }

  /** A negative amount and an amount above the balance are refused with both balances kept. */
  lemma PixRefusedAmounts()
    ensures Transfer(map[10 := 1000, 5 := 0], 10, 5, Decimal(-10, 0)) ==
      Effect(Failure(InvalidAmount), map[10 := 1000, 5 := 0], [])
    ensures Transfer(map[10 := 1000, 5 := 0], 5, 10, Decimal(5, 0)) ==
      Effect(Failure(InsufficientFunds), map[10 := 1000, 5 := 0], [])
  {
  }

  /** The two legs of PixPartial: the debit of the source and the credit of the destination. */
  lemma PixPartialLegs()
    ensures Debit(1000, Decimal(6, 0)) == Success(400) && Credit(0, Decimal(6, 0)) == Success(600)
  {
    DebitOfWholeCents(1000, Decimal(6, 0));
    CreditOfWholeCents(0, Decimal(6, 0));
  }

  /** PixTest: sending 6 of 10.00 leaves 4.00 and 6.00. */
  lemma PixPartial()
    ensures Transfer(map[10 := 1000, 5 := 0], 10, 5, Decimal(6, 0)) ==
      Effect(Success(400), map[10 := 400, 5 := 600], [Account(10, 400), Account(5, 600)])
  {
    PixPartialLegs();
    TransferBetween(10, 5, 1000, 0, Decimal(6, 0), 400, 600);
  }

  /** The two legs of PixTwoDecimals: the debit of the source and the credit of the destination. */
  lemma PixTwoDecimalsLegs()
    ensures Debit(1000, Decimal(437, 2)) == Success(563) && Credit(0, Decimal(437, 2)) == Success(437)
  {
    DebitOfWholeCents(1000, Decimal(437, 2));
    CreditOfWholeCents(0, Decimal(437, 2));
  }

  /** PixTest: 4.37 moves exactly, leaving 5.63 and 4.37. */
  lemma PixTwoDecimals()
    ensures Transfer(map[10 := 1000, 5 := 0], 10, 5, Decimal(437, 2)) ==
      Effect(Success(563), map[10 := 563, 5 := 437], [Account(10, 563), Account(5, 437)])
  {
    PixTwoDecimalsLegs();
    TransferBetween(10, 5, 1000, 0, Decimal(437, 2), 563, 437);
  }

  /** The two legs of PixRoundsUp: the debit of the source and the credit of the destination. */
  lemma PixRoundsUpLegs()
    ensures Debit(1000, Decimal(4379, 3)) == Success(562) && Credit(0, Decimal(4379, 3)) == Success(438)
  {
    assert Pow10(1) == 10;
    DebitOfFineAmount(1000, Decimal(4379, 3), 562);
    CreditOfFineAmount(0, Decimal(4379, 3), 438);
  }

  /** PixTest: 4.379 leaves 5.62 and 4.38, each side rounded to the nearer cent. */
  lemma PixRoundsUp()
    ensures Transfer(map[10 := 1000, 5 := 0], 10, 5, Decimal(4379, 3)) ==
      Effect(Success(562), map[10 := 562, 5 := 438], [Account(10, 562), Account(5, 438)])
  {
    PixRoundsUpLegs();
    TransferBetween(10, 5, 1000, 0, Decimal(4379, 3), 562, 438);
  }

  /** The two legs of PixRoundsDown: the debit of the source and the credit of the destination. */
  lemma PixRoundsDownLegs()
    ensures Debit(1000, Decimal(4371, 3)) == Success(563) && Credit(0, Decimal(4371, 3)) == Success(437)
  {
    assert Pow10(1) == 10;
    DebitOfFineAmount(1000, Decimal(4371, 3), 563);
    CreditOfFineAmount(0, Decimal(4371, 3), 437);
  }

  /** PixTest: 4.371 leaves 5.63 and 4.37. */
  lemma PixRoundsDown()
    ensures Transfer(map[10 := 1000, 5 := 0], 10, 5, Decimal(4371, 3)) ==
      Effect(Success(563), map[10 := 563, 5 := 437], [Account(10, 563), Account(5, 437)])
  {
    PixRoundsDownLegs();
    TransferBetween(10, 5, 1000, 0, Decimal(4371, 3), 563, 437);
  }

  /** The two legs of PixTieOnOddCent: the debit of the source and the credit of the destination. */
  lemma PixTieOnOddCentLegs()
    ensures Debit(1000, Decimal(4375, 3)) == Success(562) && Credit(0, Decimal(4375, 3)) == Success(438)
  {
    assert Pow10(1) == 10;
    DebitOfFineAmount(1000, Decimal(4375, 3), 562);
    CreditOfFineAmount(0, Decimal(4375, 3), 438);
  }

  /** PixTest: 4.375 leaves 5.62 and 4.38; both ties go to the even cent. */
  lemma PixTieOnOddCent()
    ensures Transfer(map[10 := 1000, 5 := 0], 10, 5, Decimal(4375, 3)) ==
      Effect(Success(562), map[10 := 562, 5 := 438], [Account(10, 562), Account(5, 438)])
  {
    PixTieOnOddCentLegs();
    TransferBetween(10, 5, 1000, 0, Decimal(4375, 3), 562, 438);
  }

  /** The two legs of PixTieOnEvenCent: the debit of the source and the credit of the destination. */
  lemma PixTieOnEvenCentLegs()
    ensures Debit(1000, Decimal(4365, 3)) == Success(564) && Credit(0, Decimal(4365, 3)) == Success(436)
  {
    assert Pow10(1) == 10;
    DebitOfFineAmount(1000, Decimal(4365, 3), 564);
    CreditOfFineAmount(0, Decimal(4365, 3), 436);
  }

  /** PixTest: 4.365 leaves 5.64 and 4.36; both ties go to the even cent. */
  lemma PixTieOnEvenCent()
    ensures Transfer(map[10 := 1000, 5 := 0], 10, 5, Decimal(4365, 3)) ==
      Effect(Success(564), map[10 := 564, 5 := 436], [Account(10, 564), Account(5, 436)])
  {
    PixTieOnEvenCentLegs();
    TransferBetween(10, 5, 1000, 0, Decimal(4365, 3), 564, 436);
  }

  /** The two legs of PixControllerPartial: the debit of the source and the credit of the destination. */
  lemma PixControllerPartialLegs()
    ensures Debit(1000, Decimal(3, 0)) == Success(700) && Credit(0, Decimal(3, 0)) == Success(300)
  {
    DebitOfWholeCents(1000, Decimal(3, 0));
    CreditOfWholeCents(0, Decimal(3, 0));
  }

  /** PixControllerTest: sending 3 of 10.00 leaves 7.00 and 3.00. */
  lemma PixControllerPartial()
    ensures Transfer(map[1 := 1000, 2 := 0], 1, 2, Decimal(3, 0)) ==
      Effect(Success(700), map[1 := 700, 2 := 300], [Account(1, 700), Account(2, 300)])
  {
    PixControllerPartialLegs();
    TransferBetween(1, 2, 1000, 0, Decimal(3, 0), 700, 300);
  }

  /** The two legs of PixControllerTwoDecimals: the debit of the source and the credit of the destination. */
  lemma PixControllerTwoDecimalsLegs()
    ensures Debit(1000, Decimal(235, 2)) == Success(765) && Credit(0, Decimal(235, 2)) == Success(235)
  {
    DebitOfWholeCents(1000, Decimal(235, 2));
    CreditOfWholeCents(0, Decimal(235, 2));
  }

  /** PixControllerTest: 2.35 leaves 7.65 and 2.35. */
  lemma PixControllerTwoDecimals()
    ensures Transfer(map[1 := 1000, 2 := 0], 1, 2, Decimal(235, 2)) ==
      Effect(Success(765), map[1 := 765, 2 := 235], [Account(1, 765), Account(2, 235)])
  {
    PixControllerTwoDecimalsLegs();
    TransferBetween(1, 2, 1000, 0, Decimal(235, 2), 765, 235);
  }

  /** The two legs of PixControllerRoundsUp: the debit of the source and the credit of the destination. */
  lemma PixControllerRoundsUpLegs()
    ensures Debit(1000, Decimal(2359, 3)) == Success(764) && Credit(0, Decimal(2359, 3)) == Success(236)
  {
    assert Pow10(1) == 10;
    DebitOfFineAmount(1000, Decimal(2359, 3), 764);
    CreditOfFineAmount(0, Decimal(2359, 3), 236);
  }

  /** PixControllerTest: 2.359 leaves 7.64 and 2.36. */
  lemma PixControllerRoundsUp()
    ensures Transfer(map[1 := 1000, 2 := 0], 1, 2, Decimal(2359, 3)) ==
      Effect(Success(764), map[1 := 764, 2 := 236], [Account(1, 764), Account(2, 236)])
  {
    PixControllerRoundsUpLegs();
    TransferBetween(1, 2, 1000, 0, Decimal(2359, 3), 764, 236);
  }

  /** The two legs of PixControllerRoundsDown: the debit of the source and the credit of the destination. */
  lemma PixControllerRoundsDownLegs()
    ensures Debit(1000, Decimal(2351, 3)) == Success(765) && Credit(0, Decimal(2351, 3)) == Success(235)
  {
    assert Pow10(1) == 10;
    DebitOfFineAmount(1000, Decimal(2351, 3), 765);
    CreditOfFineAmount(0, Decimal(2351, 3), 235);
  }

  /** PixControllerTest: 2.351 leaves 7.65 and 2.35. */
  lemma PixControllerRoundsDown()
    ensures Transfer(map[1 := 1000, 2 := 0], 1, 2, Decimal(2351, 3)) ==
      Effect(Success(765), map[1 := 765, 2 := 235], [Account(1, 765), Account(2, 235)])
  {
    PixControllerRoundsDownLegs();
    TransferBetween(1, 2, 1000, 0, Decimal(2351, 3), 765, 235);
  }

  /** The two legs of PixControllerTieOnOddCent: the debit of the source and the credit of the destination. */
  lemma PixControllerTieOnOddCentLegs()
    ensures Debit(1000, Decimal(2355, 3)) == Success(764) && Credit(0, Decimal(2355, 3)) == Success(236)
  {
    assert Pow10(1) == 10;
    DebitOfFineAmount(1000, Decimal(2355, 3), 764);
    CreditOfFineAmount(0, Decimal(2355, 3), 236);
  }

  /** PixControllerTest: 2.355 leaves 7.64 and 2.36. */
  lemma PixControllerTieOnOddCent()
    ensures Transfer(map[1 := 1000, 2 := 0], 1, 2, Decimal(2355, 3)) ==
      Effect(Success(764), map[1 := 764, 2 := 236], [Account(1, 764), Account(2, 236)])
  {
    PixControllerTieOnOddCentLegs();
    TransferBetween(1, 2, 1000, 0, Decimal(2355, 3), 764, 236);
  }

  /** The two legs of PixControllerTieOnEvenCent: the debit of the source and the credit of the destination. */
  lemma PixControllerTieOnEvenCentLegs()
    ensures Debit(1000, Decimal(2365, 3)) == Success(764) && Credit(0, Decimal(2365, 3)) == Success(236)
  {
    assert Pow10(1) == 10;
    DebitOfFineAmount(1000, Decimal(2365, 3), 764);
    CreditOfFineAmount(0, Decimal(2365, 3), 236);
  }

  /** PixControllerTest: 2.365 leaves 7.64 and 2.36, where rounding half up would give 2.37. */
  lemma PixControllerTieOnEvenCent()
    ensures Transfer(map[1 := 1000, 2 := 0], 1, 2, Decimal(2365, 3)) ==
      Effect(Success(764), map[1 := 764, 2 := 236], [Account(1, 764), Account(2, 236)])
  {
    PixControllerTieOnEvenCentLegs();
    TransferBetween(1, 2, 1000, 0, Decimal(2365, 3), 764, 236);
  }

  /** PixControllerTest: an empty source cannot send 10, and -3 is refused. */
  lemma PixControllerRefusedAmounts()
    ensures Transfer(map[1 := 0, 2 := 0], 1, 2, Decimal(10, 0)) ==
      Effect(Failure(InsufficientFunds), map[1 := 0, 2 := 0], [])
    ensures Transfer(map[1 := 1000, 2 := 0], 1, 2, Decimal(-3, 0)) ==
      Effect(Failure(InvalidAmount), map[1 := 1000, 2 := 0], [])
  {
  }

  /** The two legs of TransferLosesACent: 10.01 - 0.005 and 0.00 + 0.005 both round to even. */
  lemma TransferLosesACentLegs()
    ensures Debit(1001, Decimal(5, 3)) == Success(1000) && Credit(0, Decimal(5, 3)) == Success(0)
  {
    assert Pow10(1) == 10;
    DebitOfFineAmount(1001, Decimal(5, 3), 1000);
    CreditOfFineAmount(0, Decimal(5, 3), 0);
  }

  /**
   * Rounding each side on its own can lose a cent: sending 0.005 from 10.01
   * leaves 10.00 and 0.00, so the two balances together drop from 10.01 to
   * 10.00. `TransferWithinOneCent` shows a cent is as far as it goes.
   */
  lemma TransferLosesACent()
    ensures Transfer(map[1 := 1001, 2 := 0], 1, 2, Decimal(5, 3)) ==
      Effect(Success(1000), map[1 := 1000, 2 := 0], [Account(1, 1000), Account(2, 0)])
  {
    TransferLosesACentLegs();
    TransferBetween(1, 2, 1001, 0, Decimal(5, 3), 1000, 0);
  }

  // ---------------------------------------------------------------------------
  // DepositoTest (account 10) and DepositoControllerTest (account 1)
  // ---------------------------------------------------------------------------

  /** An unknown account and a negative amount are refused, nothing saved and nothing changed. */
  lemma DepositRefused()
    ensures Deposit(map[10 := 0], 1, Decimal(1, 0)) == Effect(Failure(AccountNotFound), map[10 := 0], [])
    ensures Deposit(map[10 := 0], 10, Decimal(-10, 0)) == Effect(Failure(InvalidAmount), map[10 := 0], [])
    ensures Deposit(map[1 := 1000], 9999, Decimal(37, 1)) == Effect(Failure(AccountNotFound), map[1 := 1000], [])
    ensures Deposit(map[1 := 1000], 1, Decimal(-37, 1)) == Effect(Failure(InvalidAmount), map[1 := 1000], [])
  {
  }

  /** DepositoTest: depositing 12 into 0.00 gives 12.00. */
  lemma DepositWhole()
    ensures Deposit(map[10 := 0], 10, Decimal(12, 0)) == Effect(Success(1200), map[10 := 1200], [Account(10, 1200)])
  {
    CreditOfWholeCents(0, Decimal(12, 0));
    DepositInto(10, 0, Decimal(12, 0), 1200);
  }

  /** DepositoTest: depositing 10 and then 17 gives 10.00 and then 27.00. */
  lemma DepositsConsecutive()
    ensures var once := Deposit(map[10 := 0], 10, Decimal(10, 0));
      once == Effect(Success(1000), map[10 := 1000], [Account(10, 1000)]) &&
      Deposit(once.balances, 10, Decimal(17, 0)) == Effect(Success(2700), map[10 := 2700], [Account(10, 2700)])
  {
    CreditOfWholeCents(0, Decimal(10, 0));
    DepositInto(10, 0, Decimal(10, 0), 1000);
    CreditOfWholeCents(1000, Decimal(17, 0));
    DepositInto(10, 1000, Decimal(17, 0), 2700);
  }

  /** DepositoTest: 12.27 is kept exactly. */
  lemma DepositTwoDecimals()
    ensures Deposit(map[10 := 0], 10, Decimal(1227, 2)) == Effect(Success(1227), map[10 := 1227], [Account(10, 1227)])
  {
    CreditOfWholeCents(0, Decimal(1227, 2));
    DepositInto(10, 0, Decimal(1227, 2), 1227);
  }

  /** DepositoTest: 12.279 becomes 12.28. */
  lemma DepositRoundsUp()
    ensures Deposit(map[10 := 0], 10, Decimal(12279, 3)) == Effect(Success(1228), map[10 := 1228], [Account(10, 1228)])
  {
    assert Pow10(1) == 10;
    CreditOfFineAmount(0, Decimal(12279, 3), 1228);
    DepositInto(10, 0, Decimal(12279, 3), 1228);
  }

  /** DepositoTest: 12.2709 becomes 12.27. */
  lemma DepositRoundsDown()
    ensures Deposit(map[10 := 0], 10, Decimal(122709, 4)) == Effect(Success(1227), map[10 := 1227], [Account(10, 1227)])
  {
    assert Pow10(2) == 100;
    CreditOfFineAmount(0, Decimal(122709, 4), 1227);
    DepositInto(10, 0, Decimal(122709, 4), 1227);
  }

  /** DepositoTest: 10.275 becomes 10.28, the even neighbour. */
  lemma DepositTieOnOddCent()
    ensures Deposit(map[10 := 0], 10, Decimal(10275, 3)) == Effect(Success(1028), map[10 := 1028], [Account(10, 1028)])
  {
    assert Pow10(1) == 10;
    CreditOfFineAmount(0, Decimal(10275, 3), 1028);
    DepositInto(10, 0, Decimal(10275, 3), 1028);
  }

  /** DepositoTest: 10.265 becomes 10.26, the even neighbour, where rounding half up would give 10.27. */
  lemma DepositTieOnEvenCent()
    ensures Deposit(map[10 := 0], 10, Decimal(10265, 3)) == Effect(Success(1026), map[10 := 1026], [Account(10, 1026)])
  {
    assert Pow10(1) == 10;
    CreditOfFineAmount(0, Decimal(10265, 3), 1026);
    DepositInto(10, 0, Decimal(10265, 3), 1026);
  }

  /** DepositoControllerTest: 3 gives 3.00. */
  lemma DepositControllerWhole()
    ensures Deposit(map[1 := 0], 1, Decimal(3, 0)) == Effect(Success(300), map[1 := 300], [Account(1, 300)])
  {
    CreditOfWholeCents(0, Decimal(3, 0));
    DepositInto(1, 0, Decimal(3, 0), 300);
  }

  /** DepositoControllerTest: 4.3 and then 7.1 give 4.30 and then 11.40. */
  lemma DepositControllerConsecutive()
    ensures var once := Deposit(map[1 := 0], 1, Decimal(43, 1));
      once == Effect(Success(430), map[1 := 430], [Account(1, 430)]) &&
      Deposit(once.balances, 1, Decimal(71, 1)) == Effect(Success(1140), map[1 := 1140], [Account(1, 1140)])
  {
    CreditOfWholeCents(0, Decimal(43, 1));
    DepositInto(1, 0, Decimal(43, 1), 430);
    CreditOfWholeCents(430, Decimal(71, 1));
    DepositInto(1, 430, Decimal(71, 1), 1140);
  }

  /** DepositoControllerTest: 3.7 gives 3.70. */
  lemma DepositControllerOneDecimal()
    ensures Deposit(map[1 := 0], 1, Decimal(37, 1)) == Effect(Success(370), map[1 := 370], [Account(1, 370)])
  {
    CreditOfWholeCents(0, Decimal(37, 1));
    DepositInto(1, 0, Decimal(37, 1), 370);
  }

  /** DepositoControllerTest: 3.799 gives 3.80. */
  lemma DepositControllerRoundsUp()
    ensures Deposit(map[1 := 0], 1, Decimal(3799, 3)) == Effect(Success(380), map[1 := 380], [Account(1, 380)])
  {
    assert Pow10(1) == 10;
    CreditOfFineAmount(0, Decimal(3799, 3), 380);
    DepositInto(1, 0, Decimal(3799, 3), 380);
  }

  /** DepositoControllerTest: 3.612 gives 3.61. */
  lemma DepositControllerRoundsDown()
    ensures Deposit(map[1 := 0], 1, Decimal(3612, 3)) == Effect(Success(361), map[1 := 361], [Account(1, 361)])
  {
    assert Pow10(1) == 10;
    CreditOfFineAmount(0, Decimal(3612, 3), 361);
    DepositInto(1, 0, Decimal(3612, 3), 361);
  }

  /** DepositoControllerTest: 5.651, a tenth of a cent above 5.65, gives 5.65. */
  lemma DepositControllerRoundsDownBelowHalf()
    ensures Deposit(map[1 := 0], 1, Decimal(5651, 3)) == Effect(Success(565), map[1 := 565], [Account(1, 565)])
  {
    assert Pow10(1) == 10;
    CreditOfFineAmount(0, Decimal(5651, 3), 565);
    DepositInto(1, 0, Decimal(5651, 3), 565);
  }

  /** DepositoControllerTest: 2.458, eight tenths of a cent above 2.45, gives 2.46. */
  lemma DepositControllerRoundsUpAboveHalf()
    ensures Deposit(map[1 := 0], 1, Decimal(2458, 3)) == Effect(Success(246), map[1 := 246], [Account(1, 246)])
  {
    assert Pow10(1) == 10;
    CreditOfFineAmount(0, Decimal(2458, 3), 246);
    DepositInto(1, 0, Decimal(2458, 3), 246);
  }
}
