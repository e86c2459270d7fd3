/** The credit manager: account states by slot, changed in place. */
module CreditManagers {
  import opened Domain
  import opened Credits

  function Slot(accountId: u32): (r: nat)
    ensures r < MAX_ACCOUNTS
  {
    accountId % MAX_ACCOUNTS
  }

  /** A slot without an account takes the first account that asks for it. */
  function Labelled(a: Account, accountId: u32): Account {
    if a.accountId == 0 then a.(accountId := accountId) else a
  }

  class CreditManager {
    const accounts: array<Account>

    ghost predicate Valid()
    {
      accounts.Length == MAX_ACCOUNTS
    }

    constructor ()
      ensures Valid() && fresh(accounts)
      ensures forall i :: 0 <= i < MAX_ACCOUNTS ==> accounts[i] == Account(i, INITIAL_POWER, 0, 0, 0)
    {
      accounts := new Account[MAX_ACCOUNTS](i requires 0 <= i < MAX_ACCOUNTS => Account(i, INITIAL_POWER, 0, 0, 0));
    }

    method AccountState(accountId: u32) returns (a: Account)
      requires Valid()
      modifies accounts
      ensures a == Labelled(old(accounts[Slot(accountId)]), accountId)
      ensures accounts[..] == old(accounts[..])[Slot(accountId) := a]
    {
      if accounts[Slot(accountId)].accountId == 0 {
        accounts[Slot(accountId)] := accounts[Slot(accountId)].(accountId := accountId);
      }
      a := accounts[Slot(accountId)];
    }

    method UpdateOnAccept(accountId: u32, cost: u64)
      requires Valid()
      modifies accounts
      ensures accounts[..] ==
              old(accounts[..])[Slot(accountId) := Accepted(Labelled(old(accounts[Slot(accountId)]), accountId), cost)]
    {
      var a := AccountState(accountId);
      if a.available >= cost {
        accounts[Slot(accountId)] := a.(available := a.available - cost, reserved := Wrap64(a.reserved + cost));
      }
    }

    method UpdateOnFill(accountId: u32, cost: u64)
      requires Valid()
      modifies accounts
      ensures accounts[..] ==
              old(accounts[..])[Slot(accountId) := Filled(Labelled(old(accounts[Slot(accountId)]), accountId), cost)]
    {
      var a := AccountState(accountId);
      if a.reserved >= cost {
        a := a.(reserved := a.reserved - cost);
      } else {
        var remainder := cost - a.reserved;
        a := a.(reserved := 0);
        if a.available >= remainder {
          a := a.(available := a.available - remainder);
        }
      }
      a := a.(used := Wrap64(a.used + cost));
      a := a.(daily := Wrap64(a.daily + cost));
      accounts[Slot(accountId)] := a;
    }

    method UpdateOnCancel(accountId: u32, cost: u64)
      requires Valid()
      modifies accounts
      ensures accounts[..] ==
              old(accounts[..])[Slot(accountId) := Cancelled(Labelled(old(accounts[Slot(accountId)]), accountId), cost)]
    {
      var a := AccountState(accountId);
      if a.reserved >= cost {
        accounts[Slot(accountId)] := a.(reserved := a.reserved - cost, available := Wrap64(a.available + cost));
      }
    }
  }
}
