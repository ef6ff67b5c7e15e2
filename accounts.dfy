/**
 * Accounts and their two balance primitives, credit (`deposito`) and debit
 * (`saque`), as the test suites pin them down: balances are whole cents, an
 * amount is an exact decimal, and every new balance is the exact result
 * rounded to two decimals, ties to even.
 */
module Accounts {
  import opened Decimals

  type AccountNumber = int

  /** A balance in cents (a `BigDecimal` of scale 2). */
  type Cents = int

  /** The failures the core signals; in the source each is an exception class. */
  datatype Error =
    | SameAccount        // ContaOrigemIgualDestinoException
    | AccountNotFound    // ResourceNotFoundException
    | InvalidAmount      // ValorInvalidoException
    | InsufficientFunds  // SaldoInsuficienteException

  datatype Result<T> = Success(value: T) | Failure(error: Error)

  datatype Option<T> = None | Some(value: T)

  /** An account as the repository hands it out and takes it back. */
  datatype Account = Account(number: AccountNumber, balance: Cents)

  /**
   * What an operation does to the account table: its result, the balances
   * afterwards and the accounts it saved, in order.
   */
  datatype Effect = Effect(result: Result<Cents>, balances: map<AccountNumber, Cents>, saved: seq<Account>)

  /** No account is overdrawn. */
  predicate AllNonNegative(balances: map<AccountNumber, Cents>)
  {
    forall number :: number in balances ==> balances[number] >= 0
  }

  /**
   * `deposito`: a negative amount is refused with the balance untouched;
   * otherwise the balance becomes balance + amount rounded to cents.
   */
  function Credit(balance: Cents, amount: Decimal): (r: Result<Cents>)
    ensures r.Failure? <==> IsNegative(amount)
    ensures r.Failure? ==> r.error == InvalidAmount
    ensures r.Success? ==> RoundsTo(Add(FromCents(balance), amount), r.value)
    ensures r.Success? ==> r.value >= balance
  {
    if IsNegative(amount) then Failure(InvalidAmount)
    else
      var exact := Add(FromCents(balance), amount);
      var c := Round2(exact);
      AddIsExact(FromCents(balance), amount, CentScale(exact));
      NearestBounds(ScaledAt(exact, CentScale(exact)), Pow10(CentScale(exact) - 2), c, balance);
      Success(c)
  }

  /**
   * `saque`: a negative amount is refused as invalid, an amount larger than
   * the balance as insufficient funds (an amount equal to it is allowed);
   * otherwise the balance becomes balance - amount rounded to cents.
   */
  function Debit(balance: Cents, amount: Decimal): (r: Result<Cents>)
    ensures r == Failure(InvalidAmount) <==> IsNegative(amount)
    ensures r == Failure(InsufficientFunds) <==> !IsNegative(amount) && Exceeds(amount, FromCents(balance))
    ensures r.Failure? ==> r.error in {InvalidAmount, InsufficientFunds}
    ensures r.Success? ==> RoundsTo(Sub(FromCents(balance), amount), r.value)
    ensures r.Success? ==> 0 <= r.value <= balance
  {
    if IsNegative(amount) then Failure(InvalidAmount)
    else if Exceeds(amount, FromCents(balance)) then Failure(InsufficientFunds)
    else
      var exact := Sub(FromCents(balance), amount);
      var c := Round2(exact);
      SubIsExact(FromCents(balance), amount, CentScale(exact));
      NearestBounds(ScaledAt(exact, CentScale(exact)), Pow10(CentScale(exact) - 2), c, 0);
      NearestBounds(ScaledAt(exact, CentScale(exact)), Pow10(CentScale(exact) - 2), c, balance);
      Success(c)
  }

  /**
   * Once a debit of `amount` has gone through, a credit of the same amount
   * cannot fail: both refuse exactly the negative amounts.
   */
  lemma CreditCannotFailAfterDebit(source: Cents, destination: Cents, amount: Decimal)
    requires Debit(source, amount).Success?
    ensures Credit(destination, amount).Success?
  {
  }

  /** An amount with at most two decimals is credited exactly, with no rounding. */
  lemma CreditOfWholeCents(balance: Cents, amount: Decimal)
    requires amount.scale <= 2 && !IsNegative(amount)
    ensures Credit(balance, amount) == Success(balance + CentsOf(amount))
  {
    var exact := Add(FromCents(balance), amount);
    AddIsExact(FromCents(balance), amount, 2);
    NearestOfExact(1, balance + CentsOf(amount), Credit(balance, amount).value);
  }

  /** An amount with at most two decimals is debited exactly, with no rounding. */
  lemma DebitOfWholeCents(balance: Cents, amount: Decimal)
    requires amount.scale <= 2 && Debit(balance, amount).Success?
    ensures Debit(balance, amount) == Success(balance - CentsOf(amount))
  {
    SubIsExact(FromCents(balance), amount, 2);
    NearestOfExact(1, balance - CentsOf(amount), Debit(balance, amount).value);
  }

  /**
   * An amount with more than two decimals is credited by rounding, at the
   * amount's own scale, the exact sum to the nearest cent, ties to even.
   */
  lemma CreditOfFineAmount(balance: Cents, amount: Decimal, c: Cents)
    requires amount.scale >= 2 && !IsNegative(amount)
    requires IsNearestHalfEven(balance * Pow10(amount.scale - 2) + amount.unscaled, Pow10(amount.scale - 2), c)
    ensures Credit(balance, amount) == Success(c)
  {
    var exact := Add(FromCents(balance), amount);
    AddIsExact(FromCents(balance), amount, amount.scale);
    assert RoundsTo(exact, c);
    RoundsToUnique(exact, c, Credit(balance, amount).value);
  }

  /** Likewise a debit of an amount with more than two decimals that the balance covers. */
  lemma DebitOfFineAmount(balance: Cents, amount: Decimal, c: Cents)
    requires amount.scale >= 2 && !IsNegative(amount) && !Exceeds(amount, FromCents(balance))
    requires IsNearestHalfEven(balance * Pow10(amount.scale - 2) - amount.unscaled, Pow10(amount.scale - 2), c)
    ensures Debit(balance, amount) == Success(c)
  {
    var exact := Sub(FromCents(balance), amount);
    SubIsExact(FromCents(balance), amount, amount.scale);
    assert RoundsTo(exact, c);
    RoundsToUnique(exact, c, Debit(balance, amount).value);
  }

  /** Debiting exactly the whole balance, at any scale, leaves exactly zero. */
  lemma DebitOfWholeBalance(balance: Cents, amount: Decimal)
    requires !IsNegative(amount) && SameValue(amount, FromCents(balance))
    ensures Debit(balance, amount) == Success(0)
  {
    var exact := Sub(FromCents(balance), amount);
    var s := CentScale(exact);
    SubIsExact(FromCents(balance), amount, s);
    assert ScaledAt(exact, s) == 0 * Pow10(s - 2);
    NearestOfExact(Pow10(s - 2), 0, Debit(balance, amount).value);
  }

  /** Crediting an amount worth exactly `value` cents, at any scale, adds exactly `value`. */
  lemma CreditOfSameValue(balance: Cents, amount: Decimal, value: Cents)
    requires !IsNegative(amount) && SameValue(amount, FromCents(value))
    ensures Credit(balance, amount) == Success(balance + value)
  {
    var exact := Add(FromCents(balance), amount);
    var s := CentScale(exact);
    AddIsExact(FromCents(balance), amount, s);
    assert ScaledAt(exact, s) == (balance + value) * Pow10(s - 2);
    NearestOfExact(Pow10(s - 2), balance + value, Credit(balance, amount).value);
  }
}
