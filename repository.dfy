/**
 * The account repository the services talk to: lookup by account number and
 * save. It is held in memory as a table from account number to balance; the
 * ghost log records every account saved, in order, so that the services'
 * persistence side effects can be stated.
 */
module Repository {
  import opened Accounts

  class AccountRepository {
    var balances: map<AccountNumber, Cents>
    ghost var saved: seq<Account>

    /**
     * No stored balance is negative. The repository itself does not enforce
     * this; the services keep it for every table that has it.
     */
    ghost predicate NoOverdraft()
      reads this
    {
      AllNonNegative(balances)
    }

    constructor (initial: map<AccountNumber, Cents>)
      ensures balances == initial && saved == []
    {
      balances := initial;
      saved := [];
    }

    /** `findContaByNumeroConta`: the account with that number, if there is one. */
    method FindByNumber(number: AccountNumber) returns (found: Option<Account>)
      ensures found.Some? <==> number in balances
      ensures found.Some? ==> found.value.number == number && found.value.balance == balances[number]
    {
      if number in balances {
        found := Some(Account(number, balances[number]));
      } else {
        found := None;
      }
    }

    /** `save`: stores the account's balance under its number and logs the write. */
    method Save(account: Account)
      modifies this
      ensures balances == old(balances)[account.number := account.balance]
      ensures saved == old(saved) + [account]
    {
      balances := balances[account.number := account.balance];
      saved := saved + [account];
    }
  }
}
