/**
 * The deposit operation (`Deposito.executar`), the single-account credit
 * whose primitive the Pix transfer also uses for its destination: look the
 * account up, credit it, save it, and return the new balance.
 */
module Deposits {
  import opened Decimals
  import opened Accounts
  import opened Repository

  function Deposit(balances: map<AccountNumber, Cents>, number: AccountNumber, amount: Decimal): (e: Effect)
    ensures e.result == Failure(AccountNotFound) <==> number !in balances
    ensures e.result == Failure(InvalidAmount) <==> number in balances && IsNegative(amount)
    // every other deposit goes through
    ensures e.result.Success? <==> number in balances && !IsNegative(amount)
    // a failed deposit saves nothing and changes nothing
    ensures e.result.Failure? ==> e.balances == balances && e.saved == []
    // a successful one saves the credited account once and returns its new balance
    ensures e.result.Success? ==>
      number in balances &&
      e.saved == [Account(number, e.result.value)] &&
      e.balances == balances[number := e.result.value] &&
      Credit(balances[number], amount) == Success(e.result.value) &&
      e.result.value >= balances[number]
    ensures AllNonNegative(balances) ==> AllNonNegative(e.balances)
  {
    if number !in balances then Effect(Failure(AccountNotFound), balances, [])
    else
      var credited := Credit(balances[number], amount);
      if credited.Failure? then Effect(Failure(credited.error), balances, [])
      else Effect(Success(credited.value), balances[number := credited.value], [Account(number, credited.value)])
  }

  class DepositService {
    const repository: AccountRepository

    constructor (repository: AccountRepository)
      ensures this.repository == repository
    {
      this.repository := repository;
    }

    /** `executar`: performs `Deposit` step by step against the repository. */
    method Execute(number: AccountNumber, amount: Decimal) returns (r: Result<Cents>)
      modifies repository
      ensures var e := Deposit(old(repository.balances), number, amount);
        r == e.result && repository.balances == e.balances &&
        repository.saved == old(repository.saved) + e.saved
      ensures old(repository.NoOverdraft()) ==> repository.NoOverdraft()
    {
      var account := repository.FindByNumber(number);
      if account.None? {
        return Failure(AccountNotFound);
      }
      var credited := Credit(account.value.balance, amount);
      if credited.Failure? {
        return Failure(credited.error);
      }
      repository.Save(Account(number, credited.value));
      r := Success(credited.value);
    }
  }

  /** Deposits of amounts with at most two decimals add up exactly. */
  lemma {:induction false} ConsecutiveDepositsAccumulate(balances: map<AccountNumber, Cents>, number: AccountNumber, first: Decimal, second: Decimal)
    requires number in balances
    requires first.scale <= 2 && !IsNegative(first) && second.scale <= 2 && !IsNegative(second)
    ensures var once := Deposit(balances, number, first);
      var twice := Deposit(once.balances, number, second);
      twice.result == Success(balances[number] + CentsOf(first) + CentsOf(second)) &&
      twice.balances == balances[number := balances[number] + CentsOf(first) + CentsOf(second)]
  {
    CreditOfWholeCents(balances[number], first);
    CreditOfWholeCents(balances[number] + CentsOf(first), second);
  }
}
