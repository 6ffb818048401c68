/** Invariants of the accounts and transactions collections together, and
    their preservation by every operation of app/services/account.py and
    app/services/transaction.py. Amounts are positive whenever a request
    reaches the engine through the request schemas. */
module Bank {
  import opened Wrappers
  import opened Models
  import opened Schemas
  import opened Accounts
  import opened Transactions

  /** The net movement the records of one account add up to. */
  function Net(ledger: seq<TxRecord>, accountId: AccountId): real
  {
    if |ledger| == 0 then 0.0
    else
      var last := ledger[|ledger| - 1];
      Net(ledger[..|ledger| - 1], accountId) + (if last.accountId == accountId then last.balanceAfter - last.balanceBefore else 0.0)
  }

  /** The movement a record states matches its kind and amount. */
  predicate Consistent(r: TxRecord)
  {
    match r.transactionType
    case Deposit => r.balanceAfter == r.balanceBefore + r.amount && r.recipientAccountId.None?
    case Withdrawal => r.balanceAfter == r.balanceBefore - r.amount && r.recipientAccountId.None?
    case Transfer =>
      && (r.balanceAfter == r.balanceBefore - r.amount || r.balanceAfter == r.balanceBefore + r.amount)
      && r.recipientAccountId.Some? && r.recipientAccountId.value != r.accountId
  }

  /** The books balance:
      - no account is overdrawn;
      - every record belongs to an existing account, is completed and consistent;
      - each record starts from the balance its account's earlier records
        left behind;
      - each balance is what its account's records add up to. */
  ghost predicate Books(accounts: seq<Account>, ledger: seq<TxRecord>)
  {
    && (forall i :: 0 <= i < |accounts| ==> accounts[i].balance >= 0.0)
    && (forall k :: 0 <= k < |ledger| ==> ledger[k].accountId < |accounts|)
    && (forall k :: 0 <= k < |ledger| ==> ledger[k].status == Completed && Consistent(ledger[k]))
    && (forall k :: 0 <= k < |ledger| ==> ledger[k].balanceBefore == Net(ledger[..k], ledger[k].accountId))
    && (forall i :: 0 <= i < |accounts| ==> accounts[i].balance == Net(ledger, i))
  }

  /** An empty database balances. */
  lemma EmptyBooks()
    ensures Books([], [])
  {
  }

  lemma NetAppend(ledger: seq<TxRecord>, r: TxRecord, accountId: AccountId)
    ensures Net(ledger + [r], accountId)
         == Net(ledger, accountId) + (if r.accountId == accountId then r.balanceAfter - r.balanceBefore else 0.0)
  {
    assert (ledger + [r])[..|ledger|] == ledger;
  }

  /** An account no record names has moved nothing. */
  lemma {:induction false} NetOfUnnamed(ledger: seq<TxRecord>, accountId: AccountId)
    requires forall k :: 0 <= k < |ledger| ==> ledger[k].accountId != accountId
    ensures Net(ledger, accountId) == 0.0
  {
    if |ledger| > 0 {
      NetOfUnnamed(ledger[..|ledger| - 1], accountId);
    }
  }

  /** Appending one record `r` that starts from its account's balance and
      sets that balance to its own `balanceAfter` keeps the books. */
  lemma {:induction false} PostKeepsBooks(accounts: seq<Account>, ledger: seq<TxRecord>, r: TxRecord)
    requires Books(accounts, ledger)
    requires r.accountId < |accounts| && r.status == Completed && Consistent(r)
    requires r.balanceBefore == accounts[r.accountId].balance && r.balanceAfter >= 0.0
    ensures Books(SetBalance(accounts, r.accountId, r.balanceAfter), ledger + [r])
  {
    var accounts' := SetBalance(accounts, r.accountId, r.balanceAfter);
    var ledger' := ledger + [r];
    forall k | 0 <= k < |ledger'|
      ensures ledger'[k].balanceBefore == Net(ledger'[..k], ledger'[k].accountId)
    {
      if k < |ledger| {
        assert ledger'[..k] == ledger[..k];
      } else {
        assert ledger'[..k] == ledger;
      }
    }
    forall i | 0 <= i < |accounts'|
      ensures accounts'[i].balance == Net(ledger', i)
    {
      NetAppend(ledger, r, i);
    }
  }

  lemma DepositKeepsBooks(accounts: seq<Account>, ledger: seq<TxRecord>, userId: UserId, amount: real,
                          description: Option<string>, now: int)
    requires Books(accounts, ledger) && amount > 0.0
    ensures
      var p := DepositOutcome(accounts, ledger, userId, amount, description, now);
      Books(p.accounts, p.ledger)
  {
    var p := DepositOutcome(accounts, ledger, userId, amount, description, now);
    if p.result.Ok? {
      PostKeepsBooks(accounts, ledger, p.result.value.record);
    }
  }

  lemma WithdrawalKeepsBooks(accounts: seq<Account>, ledger: seq<TxRecord>, userId: UserId, amount: real,
                             description: Option<string>, now: int)
    requires Books(accounts, ledger)
    ensures
      var p := WithdrawalOutcome(accounts, ledger, userId, amount, description, now);
      Books(p.accounts, p.ledger)
  {
    var p := WithdrawalOutcome(accounts, ledger, userId, amount, description, now);
    if p.result.Ok? {
      PostKeepsBooks(accounts, ledger, p.result.value.record);
    }
  }

  lemma TransferKeepsBooks(accounts: seq<Account>, ledger: seq<TxRecord>, fromUserId: UserId, toAccountNumber: string,
                           amount: real, description: Option<string>, now: int)
    requires Books(accounts, ledger) && amount > 0.0
    ensures
      var p := TransferOutcome(accounts, ledger, fromUserId, toAccountNumber, amount, description, now);
      Books(p.accounts, p.ledger)
  {
    var p := TransferOutcome(accounts, ledger, fromUserId, toAccountNumber, amount, description, now);
    if p.result.Ok? {
      var s := GetUserAccount(accounts, fromUserId).value;
      var t := FindByNumber(accounts, toAccountNumber).value;
      assert p == TransferPosting(accounts, ledger, s, t, amount, description, now);
      var debit, credit := p.ledger[|ledger|], p.ledger[|ledger| + 1];
      var debited := SetBalance(accounts, s, debit.balanceAfter);
      PostKeepsBooks(accounts, ledger, debit);
      assert debited[t].balance == accounts[t].balance;
      PostKeepsBooks(debited, ledger + [debit], credit);
      assert ledger + [debit] + [credit] == p.ledger;
    }
  }

  lemma CreateAccountKeepsBooks(users: seq<User>, accounts: seq<Account>, ledger: seq<TxRecord>, userId: UserId,
                                bvn: string, accountType: AccountType, draws: seq<string>)
    requires userId < |users|
    requires forall k :: 0 <= k < |draws| ==> IsAccountNumber(draws[k])
    requires Books(accounts, ledger)
    ensures Books(CreateAccountOutcome(users, accounts, userId, bvn, accountType, draws).accounts, ledger)
  {
    var o := CreateAccountOutcome(users, accounts, userId, bvn, accountType, draws);
    if o.result.Ok? {
      NetOfUnnamed(ledger, |accounts|);
      forall i | 0 <= i < |o.accounts|
        ensures o.accounts[i].balance == Net(ledger, i)
      {
        if i < |accounts| {
          assert o.accounts[i] == accounts[i];
        }
      }
    }
  }

  /** The net movement all records of the ledger add up to. */
  function Flow(ledger: seq<TxRecord>): real
  {
    if |ledger| == 0 then 0.0
    else Flow(ledger[..|ledger| - 1]) + (ledger[|ledger| - 1].balanceAfter - ledger[|ledger| - 1].balanceBefore)
  }

  /** The sum of `Net` over the first `n` accounts. */
  function NetOfFirst(ledger: seq<TxRecord>, n: nat): real
  {
    if n == 0 then 0.0 else NetOfFirst(ledger, n - 1) + Net(ledger, n - 1)
  }

  lemma {:induction false} NetOfFirstAppend(ledger: seq<TxRecord>, r: TxRecord, n: nat)
    ensures NetOfFirst(ledger + [r], n)
         == NetOfFirst(ledger, n) + (if r.accountId < n then r.balanceAfter - r.balanceBefore else 0.0)
  {
    if n > 0 {
      NetOfFirstAppend(ledger, r, n - 1);
      NetAppend(ledger, r, n - 1);
    }
  }

  lemma {:induction false} NetOfFirstIsFlow(ledger: seq<TxRecord>, n: nat)
    requires forall k :: 0 <= k < |ledger| ==> ledger[k].accountId < n
    ensures NetOfFirst(ledger, n) == Flow(ledger)
  {
    if |ledger| == 0 {
      NetOfFirstEmpty(n);
    } else {
      var prefix, last := ledger[..|ledger| - 1], ledger[|ledger| - 1];
      NetOfFirstIsFlow(prefix, n);
      assert prefix + [last] == ledger;
      NetOfFirstAppend(prefix, last, n);
    }
  }

  lemma {:induction false} NetOfFirstEmpty(n: nat)
    ensures NetOfFirst([], n) == 0.0
  {
    if n > 0 {
      NetOfFirstEmpty(n - 1);
    }
  }

  lemma {:induction false} TotalIsNetOfFirst(accounts: seq<Account>, ledger: seq<TxRecord>)
    requires forall i :: 0 <= i < |accounts| ==> accounts[i].balance == Net(ledger, i)
    ensures Total(accounts) == NetOfFirst(ledger, |accounts|)
  {
    if |accounts| > 0 {
      TotalIsNetOfFirst(accounts[..|accounts| - 1], ledger);
    }
  }

  /** When the books balance, the money held equals the net flow the
      ledger records. */
  lemma TotalIsFlow(accounts: seq<Account>, ledger: seq<TxRecord>)
    requires Books(accounts, ledger)
    ensures Total(accounts) == Flow(ledger)
  {
    TotalIsNetOfFirst(accounts, ledger);
    NetOfFirstIsFlow(ledger, |accounts|);
  }
}
