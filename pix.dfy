/**
 * The Pix transfer (`Pix.executar`): move an amount from one account to
 * another through the repository.
 *
 * `Transfer` is the specification, a function from the account table before
 * the call to everything the call does; the class `Pix` performs the same
 * steps one at a time against an `AccountRepository`, in the source's order:
 * reject a transfer to the same account, look up the source, then the
 * destination, debit the source and save it, credit the destination and save
 * it, and return the source's new balance.
 */
module Transfers {
  import opened Decimals
  import opened Accounts
  import opened Repository

  function Transfer(balances: map<AccountNumber, Cents>, source: AccountNumber, destination: AccountNumber, amount: Decimal): (e: Effect)
    // the error taxonomy, in the order the checks are made
    ensures e.result == Failure(SameAccount) <==> source == destination
    ensures e.result == Failure(AccountNotFound) <==>
      source != destination && (source !in balances || destination !in balances)
    ensures e.result == Failure(InvalidAmount) <==>
      source != destination && source in balances && destination in balances && IsNegative(amount)
    ensures e.result == Failure(InsufficientFunds) <==>
      source != destination && source in balances && destination in balances &&
      !IsNegative(amount) && Exceeds(amount, FromCents(balances[source]))
    // a failed transfer saves nothing and changes nothing
    ensures e.result.Failure? ==> e.balances == balances && e.saved == []
    // a successful one saves the source as debited, then the destination as credited
    ensures e.result.Success? ==>
      source != destination && source in balances && destination in balances &&
      |e.saved| == 2 &&
      e.saved[0] == Account(source, e.result.value) && e.saved[1].number == destination &&
      Debit(balances[source], amount) == Success(e.saved[0].balance) &&
      Credit(balances[destination], amount) == Success(e.saved[1].balance) &&
      e.balances == balances[source := e.saved[0].balance][destination := e.saved[1].balance]
    // no account is ever overdrawn
    ensures AllNonNegative(balances) ==> AllNonNegative(e.balances)
  {
    if source == destination then Effect(Failure(SameAccount), balances, [])
    else if source !in balances || destination !in balances then Effect(Failure(AccountNotFound), balances, [])
    else
      var debited := Debit(balances[source], amount);
      if debited.Failure? then Effect(Failure(debited.error), balances, [])
      else
        // The exception the credit could raise after the source was saved never happens.
        CreditCannotFailAfterDebit(balances[source], balances[destination], amount);
        var credited := Credit(balances[destination], amount);
        var debitedSource := Account(source, debited.value);
        var creditedDestination := Account(destination, credited.value);
        Effect(Success(debited.value),
               balances[source := debited.value][destination := credited.value],
               [debitedSource, creditedDestination])
  }

  class Pix {
    const repository: AccountRepository

    constructor (repository: AccountRepository)
      ensures this.repository == repository
    {
      this.repository := repository;
    }

    /** `executar`: performs `Transfer` step by step against the repository. */
    method Execute(source: AccountNumber, destination: AccountNumber, amount: Decimal) returns (r: Result<Cents>)
      modifies repository
      ensures var e := Transfer(old(repository.balances), source, destination, amount);
        r == e.result && repository.balances == e.balances &&
        repository.saved == old(repository.saved) + e.saved
      ensures old(repository.NoOverdraft()) ==> repository.NoOverdraft()
    {
      if source == destination {
        return Failure(SameAccount);
      }
      var origin := repository.FindByNumber(source);
      if origin.None? {
        return Failure(AccountNotFound);
      }
      var target := repository.FindByNumber(destination);
      if target.None? {
        return Failure(AccountNotFound);
      }

      var debited := Debit(origin.value.balance, amount);
      if debited.Failure? {
        return Failure(debited.error);
      }
      repository.Save(Account(source, debited.value));

      CreditCannotFailAfterDebit(origin.value.balance, target.value.balance, amount);
      var credited := Credit(target.value.balance, amount);
      repository.Save(Account(destination, credited.value));

      r := Success(debited.value);
    }
  }

  /** An amount with at most two decimals moves exactly: the destination gains what the source loses. */
  lemma TransferOfWholeCents(balances: map<AccountNumber, Cents>, source: AccountNumber, destination: AccountNumber, amount: Decimal)
    requires amount.scale <= 2
    requires Transfer(balances, source, destination, amount).result.Success?
    ensures var after := Transfer(balances, source, destination, amount).balances;
      after[source] == balances[source] - CentsOf(amount) &&
      after[destination] == balances[destination] + CentsOf(amount) &&
      after[source] + after[destination] == balances[source] + balances[destination]
  {
    DebitOfWholeCents(balances[source], amount);
    CreditOfWholeCents(balances[destination], amount);
  }

  /**
   * With any amount, the two balances together change by at most one cent:
   * each side is within half a cent of the exact result.
   */
  lemma TransferWithinOneCent(balances: map<AccountNumber, Cents>, source: AccountNumber, destination: AccountNumber, amount: Decimal)
    requires Transfer(balances, source, destination, amount).result.Success?
    ensures var after := Transfer(balances, source, destination, amount).balances;
      Abs((after[source] + after[destination]) - (balances[source] + balances[destination])) <= 1
  {
    var e := Transfer(balances, source, destination, amount);
    MovedWithinOneCent(balances[source], balances[destination], amount, e.saved[0].balance, e.saved[1].balance);
  }

  /**
   * Sending the whole balance of the source, written at any scale, empties
   * the source and adds exactly that balance to the destination.
   */
  lemma TransferOfWholeBalance(balances: map<AccountNumber, Cents>, source: AccountNumber, destination: AccountNumber, amount: Decimal)
    requires Transfer(balances, source, destination, amount).result.Success?
    requires SameValue(amount, FromCents(balances[source]))
    ensures var after := Transfer(balances, source, destination, amount).balances;
      after[source] == 0 && after[destination] == balances[destination] + balances[source]
  {
    DebitOfWholeBalance(balances[source], amount);
    CreditOfSameValue(balances[destination], amount, balances[source]);
  }
}
