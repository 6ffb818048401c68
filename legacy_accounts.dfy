/** services/account.py: the older account service. Its `AccountService`
    works on its own accounts collection, addressed by document id; here
    the collection is a field of the class and an id is a position in it.
    The service converts balances to `float`; the model keeps them `real`. */
module LegacyAccounts {
  import opened Wrappers
  import opened Models

  /** What the service reads and writes of an account document. */
  datatype LegacyAccount = LegacyAccount(userId: UserId, balance: real)

  /** The collection after a call, and what the call returned. */
  datatype Change = Change(accounts: seq<LegacyAccount>, result: Result<string, Error>)

  /** `get_account`: the first account of the user, or 404. */
  function GetAccountOutcome(accounts: seq<LegacyAccount>, userId: UserId): (r: Result<LegacyAccount, Error>)
    ensures r.Err? <==> forall j :: 0 <= j < |accounts| ==> accounts[j].userId != userId
    ensures r.Err? ==> r.error == AccountNotFound && StatusCode(r.error) == 404
    ensures r.Ok? ==> r.value.userId == userId
    ensures r.Ok? ==> exists i :: 0 <= i < |accounts| && accounts[i] == r.value
                                  && forall j :: 0 <= j < i ==> accounts[j].userId != userId
  {
    match FirstIndex(accounts, (a: LegacyAccount) => a.userId == userId)
    case None => Err(AccountNotFound)
    case Some(i) => Ok(accounts[i])
  }

  /** `get_account_by_id`: the document with that id, if any. */
  function AccountById(accounts: seq<LegacyAccount>, id: nat): (r: Option<LegacyAccount>)
    ensures r.Some? <==> id < |accounts|
    ensures r.Some? ==> r.value == accounts[id]
  {
    if id < |accounts| then Some(accounts[id]) else None
  }

  /** `deposit_fund`: no ownership check and no check on the amount. */
  function DepositFundOutcome(accounts: seq<LegacyAccount>, id: nat, amount: real): (c: Change)
    ensures c.result.Err? <==> id >= |accounts|
    ensures c.result.Err? ==> c.result.error == UnknownAccountId && c.accounts == accounts
    ensures c.result.Ok? ==>
      && c.result.value == "successful"
      && |c.accounts| == |accounts|
      && c.accounts[id].balance == accounts[id].balance + amount
      && c.accounts[id].userId == accounts[id].userId
      && forall j :: 0 <= j < |accounts| && j != id ==> c.accounts[j] == accounts[j]
  {
    match AccountById(accounts, id)
    case None => Change(accounts, Err(UnknownAccountId))
    case Some(a) => Change(accounts[id := a.(balance := a.balance + amount)], Ok("successful"))
  }

  /** `withdraw_fund`: ownership first, then funds; withdrawing exactly the
      balance is allowed. */
  function WithdrawFundOutcome(accounts: seq<LegacyAccount>, id: nat, amount: real, callerId: UserId): (c: Change)
    ensures c.result == Err(UnknownAccountId) <==> id >= |accounts|
    ensures c.result == Err(NotAccountOwner) <==> id < |accounts| && accounts[id].userId != callerId
    ensures c.result == Err(WithdrawalExceedsBalance) <==>
      id < |accounts| && accounts[id].userId == callerId && amount > accounts[id].balance
    ensures c.result.Err? ==> c.accounts == accounts
    ensures c.result.Ok? <==> id < |accounts| && accounts[id].userId == callerId && amount <= accounts[id].balance
    ensures c.result.Ok? ==>
      && c.result.value == "Withdrawal successful"
      && |c.accounts| == |accounts|
      && accounts[id].userId == callerId
      && c.accounts[id].balance == accounts[id].balance - amount
      && c.accounts[id].balance >= 0.0
      && c.accounts[id].userId == accounts[id].userId
      && forall j :: 0 <= j < |accounts| && j != id ==> c.accounts[j] == accounts[j]
  {
    match AccountById(accounts, id)
    case None => Change(accounts, Err(UnknownAccountId))
    case Some(a) =>
      if a.userId != callerId then Change(accounts, Err(NotAccountOwner))
      else if amount > a.balance then Change(accounts, Err(WithdrawalExceedsBalance))
      else Change(accounts[id := a.(balance := a.balance - amount)], Ok("Withdrawal successful"))
  }

  ghost predicate NoOverdraft(accounts: seq<LegacyAccount>)
  {
    forall j :: 0 <= j < |accounts| ==> accounts[j].balance >= 0.0
  }

  /** A withdrawal, whatever its amount, never leaves a negative balance
      behind. */
  lemma WithdrawFundKeepsNoOverdraft(accounts: seq<LegacyAccount>, id: nat, amount: real, callerId: UserId)
    requires NoOverdraft(accounts)
    ensures NoOverdraft(WithdrawFundOutcome(accounts, id, amount, callerId).accounts)
  {
    var c := WithdrawFundOutcome(accounts, id, amount, callerId);
    forall j | 0 <= j < |c.accounts|
      ensures c.accounts[j].balance >= 0.0
    {
      if c.result.Ok? && j != id {
        assert c.accounts[j] == accounts[j];
      }
    }
  }

  /** With no check on the amount, a negative deposit is accepted and can
      overdraw an account. */
  lemma DepositFundAcceptsNegativeAmount(accounts: seq<LegacyAccount>, id: nat)
    requires id < |accounts| && accounts[id].balance == 0.0
    ensures
      var c := DepositFundOutcome(accounts, id, -1.0);
      c.result == Ok("successful") && !NoOverdraft(c.accounts)
  {
    var c := DepositFundOutcome(accounts, id, -1.0);
    assert c.accounts[id].balance < 0.0;
  }

  /** The owner withdrawing what was just deposited restores the
      collection. This holds for real numbers; with the service's `float`
      values the round trip can be off in the last digit. */
  lemma DepositThenWithdrawRestores(accounts: seq<LegacyAccount>, id: nat, amount: real)
    requires id < |accounts| && accounts[id].balance >= 0.0
    ensures
      var d := DepositFundOutcome(accounts, id, amount);
      var w := WithdrawFundOutcome(d.accounts, id, amount, accounts[id].userId);
      w.result.Ok? && w.accounts == accounts
  {
    var d := DepositFundOutcome(accounts, id, amount);
    var w := WithdrawFundOutcome(d.accounts, id, amount, accounts[id].userId);
    assert w.accounts[id] == accounts[id];
  }

  class AccountService {
    var accounts: seq<LegacyAccount>

    constructor()
      ensures accounts == []
    {
      accounts := [];
    }

    /** `create_account`: a zero-balance account owned by `userId`,
        read back after the insert. */
    method CreateAccount(userId: UserId) returns (id: nat, account: LegacyAccount)
      modifies this
      ensures accounts == old(accounts) + [account]
      ensures id == |old(accounts)|
      ensures account.userId == userId && account.balance == 0.0
    {
      id := |accounts|;
      accounts := accounts + [LegacyAccount(userId, 0.0)];
      account := accounts[id];
    }

    method GetAccount(userId: UserId) returns (r: Result<LegacyAccount, Error>)
      ensures r == GetAccountOutcome(accounts, userId)
    {
      var i := 0;
      while i < |accounts|
        invariant 0 <= i <= |accounts|
        invariant forall j :: 0 <= j < i ==> accounts[j].userId != userId
      {
        if accounts[i].userId == userId {
          ghost var first := FirstIndex(accounts, (a: LegacyAccount) => a.userId == userId);
          assert first.Some? && first.value == i;
          return Ok(accounts[i]);
        }
        i := i + 1;
      }
      return Err(AccountNotFound);
    }

    method GetAccountById(id: nat) returns (r: Option<LegacyAccount>)
      ensures r == AccountById(accounts, id)
    {
      if id < |accounts| {
        r := Some(accounts[id]);
      } else {
        r := None;
      }
    }

    /** `deposit_fund`: read the balance, add, write it back. */
    method DepositFund(id: nat, amount: real) returns (r: Result<string, Error>)
      modifies this
      ensures Change(accounts, r) == DepositFundOutcome(old(accounts), id, amount)
    {
      var found := GetAccountById(id);
      if found.None? {
        return Err(UnknownAccountId);
      }
      var account := found.value;
      var newBalance := account.balance + amount;
      accounts := accounts[id := account.(balance := newBalance)];
      r := Ok("successful");
    }

    /** `withdraw_fund`. */
    method WithdrawFund(id: nat, amount: real, callerId: UserId) returns (r: Result<string, Error>)
      modifies this
      ensures Change(accounts, r) == WithdrawFundOutcome(old(accounts), id, amount, callerId)
    {
      var found := GetAccountById(id);
      if found.None? {
        return Err(UnknownAccountId);
      }
      var account := found.value;
      if account.userId != callerId {
        return Err(NotAccountOwner);
      }
      var oldBalance := account.balance;
      if amount > oldBalance {
        return Err(WithdrawalExceedsBalance);
      }
      accounts := accounts[id := account.(balance := oldBalance - amount)];
      r := Ok("Withdrawal successful");
    }
  }
}
