/** app/services/transaction.py: deposit, withdrawal and transfer on the
    accounts collection, each appending ledger records to the transactions
    collection, and the paginated history query.

    Every operation is one atomic step over the collections (the MongoDB
    session is not modelled). `now` is the clock: the construction time the
    `Transaction` class stamps on a record as its `timestamp`. */
module Transactions {
  import opened Wrappers
  import opened Models
  import opened Accounts

  /** The stored record and the identifier `insert_one` gave it. */
  datatype Receipt = Receipt(id: nat, record: TxRecord)

  /** Both collections after an operation, and what the operation returned. */
  datatype Posting = Posting(accounts: seq<Account>, ledger: seq<TxRecord>, result: Result<Receipt, Error>)

  /** The `$set` of a new balance on one account. */
  function SetBalance(accounts: seq<Account>, i: AccountId, b: real): (r: seq<Account>)
    requires i < |accounts|
    ensures |r| == |accounts| && r[i].balance == b
    ensures r[i] == accounts[i].(balance := b)
    ensures forall j :: 0 <= j < |accounts| && j != i ==> r[j] == accounts[j]
  {
    accounts[i := accounts[i].(balance := b)]
  }

  /** The money held across all accounts. */
  function Total(accounts: seq<Account>): real
  {
    if |accounts| == 0 then 0.0 else Total(accounts[..|accounts| - 1]) + accounts[|accounts| - 1].balance
  }

  lemma {:induction false} TotalSetBalance(accounts: seq<Account>, i: AccountId, b: real)
    requires i < |accounts|
    ensures Total(SetBalance(accounts, i, b)) == Total(accounts) - accounts[i].balance + b
  {
    var n := |accounts|;
    var r := SetBalance(accounts, i, b);
    if i == n - 1 {
      assert r[..n - 1] == accounts[..n - 1];
    } else {
      TotalSetBalance(accounts[..n - 1], i, b);
      assert r[..n - 1] == SetBalance(accounts[..n - 1], i, b);
    }
  }

  // ---- user_deposit ----

  function DepositOutcome(accounts: seq<Account>, ledger: seq<TxRecord>, userId: UserId, amount: real,
                          description: Option<string>, now: int): (p: Posting)
    ensures p.result.Err? <==> forall j :: 0 <= j < |accounts| ==> accounts[j].userId != userId
    ensures p.result.Err? ==> p.result.error == AccountNotFound && p.accounts == accounts && p.ledger == ledger
    ensures p.result.Ok? ==>
      var i := GetUserAccount(accounts, userId).value;
      var rec := p.result.value.record;
      && p.accounts == SetBalance(accounts, i, accounts[i].balance + amount)
      && p.ledger == ledger + [rec] && p.result.value.id == |ledger|
      && rec.accountId == i && rec.transactionType == Deposit && rec.amount == amount
      && rec.balanceBefore == accounts[i].balance && rec.balanceAfter == p.accounts[i].balance
      && rec.recipientAccountId.None? && rec.description == description
      && rec.status == Completed && rec.timestamp == now
  {
    match GetUserAccount(accounts, userId)
    case Err(e) => Posting(accounts, ledger, Err(e))
    case Ok(i) =>
      var before := accounts[i].balance;
      var rec := TxRecord(i, Deposit, amount, description, before, before + amount, None, Completed, now);
      Posting(SetBalance(accounts, i, before + amount), ledger + [rec], Ok(Receipt(|ledger|, rec)))
  }

  /** A deposit adds exactly its amount to the money held. */
  lemma DepositAddsAmount(accounts: seq<Account>, ledger: seq<TxRecord>, userId: UserId, amount: real,
                          description: Option<string>, now: int)
    ensures
      var p := DepositOutcome(accounts, ledger, userId, amount, description, now);
      p.result.Ok? ==> Total(p.accounts) == Total(accounts) + amount
  {
    var p := DepositOutcome(accounts, ledger, userId, amount, description, now);
    if p.result.Ok? {
      var i := GetUserAccount(accounts, userId).value;
      TotalSetBalance(accounts, i, accounts[i].balance + amount);
    }
  }

  /** `user_deposit`: the balance is set, the record is inserted with the
      default `pending` status and then marked `completed`. */
  method UserDeposit(db: Database, userId: UserId, amount: real, description: Option<string>, now: int)
    returns (r: Result<Receipt, Error>)
    modifies db
    ensures db.users == old(db.users)
    ensures Posting(db.accounts, db.transactions, r)
         == DepositOutcome(old(db.accounts), old(db.transactions), userId, amount, description, now)
  {
    var found := GetUserAccount(db.accounts, userId);
    if found.Err? {
      return Err(found.error);
    }
    var i := found.value;
    var before := db.accounts[i].balance;
    var after := before + amount;
    var record := TxRecord(i, Deposit, amount, description, before, after, None, Pending, now);
    db.accounts := SetBalance(db.accounts, i, after);
    var id := |db.transactions|;
    db.transactions := db.transactions + [record];
    db.transactions := db.transactions[id := db.transactions[id].(status := Completed)];
    r := Ok(Receipt(id, record.(status := Completed)));
  }

  // ---- user_withdrawal ----

  function WithdrawalOutcome(accounts: seq<Account>, ledger: seq<TxRecord>, userId: UserId, amount: real,
                             description: Option<string>, now: int): (p: Posting)
    ensures p.result == Err(AccountNotFound) <==> forall j :: 0 <= j < |accounts| ==> accounts[j].userId != userId
    ensures p.result == Err(InsufficientFunds) <==>
      GetUserAccount(accounts, userId).Ok? && accounts[GetUserAccount(accounts, userId).value].balance < amount
    ensures p.result.Err? ==> p.accounts == accounts && p.ledger == ledger
    ensures p.result.Ok? <==>
      GetUserAccount(accounts, userId).Ok? && amount <= accounts[GetUserAccount(accounts, userId).value].balance
    ensures p.result.Ok? ==>
      var i := GetUserAccount(accounts, userId).value;
      var rec := p.result.value.record;
      && amount <= accounts[i].balance
      && p.accounts == SetBalance(accounts, i, accounts[i].balance - amount)
      && p.accounts[i].balance >= 0.0
      && p.ledger == ledger + [rec] && p.result.value.id == |ledger|
      && rec.accountId == i && rec.transactionType == Withdrawal && rec.amount == amount
      && rec.balanceBefore == accounts[i].balance && rec.balanceAfter == p.accounts[i].balance
      && rec.recipientAccountId.None? && rec.description == description
      && rec.status == Completed && rec.timestamp == now
  {
    match GetUserAccount(accounts, userId)
    case Err(e) => Posting(accounts, ledger, Err(e))
    case Ok(i) =>
      var before := accounts[i].balance;
      if before < amount then Posting(accounts, ledger, Err(InsufficientFunds))
      else
        var rec := TxRecord(i, Withdrawal, amount, description, before, before - amount, None, Completed, now);
        Posting(SetBalance(accounts, i, before - amount), ledger + [rec], Ok(Receipt(|ledger|, rec)))
  }

  /** A withdrawal removes exactly its amount from the money held. */
  lemma WithdrawalRemovesAmount(accounts: seq<Account>, ledger: seq<TxRecord>, userId: UserId, amount: real,
                                description: Option<string>, now: int)
    ensures
      var p := WithdrawalOutcome(accounts, ledger, userId, amount, description, now);
      p.result.Ok? ==> Total(p.accounts) == Total(accounts) - amount
  {
    var p := WithdrawalOutcome(accounts, ledger, userId, amount, description, now);
    if p.result.Ok? {
      var i := GetUserAccount(accounts, userId).value;
      TotalSetBalance(accounts, i, accounts[i].balance - amount);
    }
  }

  /** Withdrawing the whole balance is allowed and leaves zero. */
  lemma WithdrawWholeBalance(accounts: seq<Account>, ledger: seq<TxRecord>, userId: UserId,
                             description: Option<string>, now: int)
    requires GetUserAccount(accounts, userId).Ok?
    ensures
      var i := GetUserAccount(accounts, userId).value;
      var p := WithdrawalOutcome(accounts, ledger, userId, accounts[i].balance, description, now);
      p.result.Ok? && p.accounts[i].balance == 0.0
  {
  }

  /** `user_withdrawal`. */
  method UserWithdrawal(db: Database, userId: UserId, amount: real, description: Option<string>, now: int)
    returns (r: Result<Receipt, Error>)
    modifies db
    ensures db.users == old(db.users)
    ensures Posting(db.accounts, db.transactions, r)
         == WithdrawalOutcome(old(db.accounts), old(db.transactions), userId, amount, description, now)
  {
    var found := GetUserAccount(db.accounts, userId);
    if found.Err? {
      return Err(found.error);
    }
    var i := found.value;
    if db.accounts[i].balance < amount {
      return Err(InsufficientFunds);
    }
    var before := db.accounts[i].balance;
    var after := before - amount;
    var record := TxRecord(i, Withdrawal, amount, description, before, after, None, Pending, now);
    db.accounts := SetBalance(db.accounts, i, after);
    var id := |db.transactions|;
    db.transactions := db.transactions + [record];
    db.transactions := db.transactions[id := db.transactions[id].(status := Completed)];
    r := Ok(Receipt(id, record.(status := Completed)));
  }

  // ---- user_transfer ----

  /** The memo of the credit leg. */
  function TransferMemo(senderNumber: string): string
  {
    "Transfer from " + senderNumber
  }

  function TransferOutcome(accounts: seq<Account>, ledger: seq<TxRecord>, fromUserId: UserId, toAccountNumber: string,
                           amount: real, description: Option<string>, now: int): (p: Posting)
    // the errors, in the order the service checks them
    ensures p.result == Err(AccountNotFound) <==> GetUserAccount(accounts, fromUserId).Err?
    ensures p.result == Err(InsufficientFunds) <==>
      GetUserAccount(accounts, fromUserId).Ok? && accounts[GetUserAccount(accounts, fromUserId).value].balance < amount
    ensures p.result == Err(RecipientNotFound) <==>
      GetUserAccount(accounts, fromUserId).Ok? && accounts[GetUserAccount(accounts, fromUserId).value].balance >= amount
      && !NumberInUse(accounts, toAccountNumber)
    ensures p.result == Err(SameAccountTransfer) <==>
      GetUserAccount(accounts, fromUserId).Ok? && accounts[GetUserAccount(accounts, fromUserId).value].balance >= amount
      && FindByNumber(accounts, toAccountNumber) == Some(GetUserAccount(accounts, fromUserId).value)
    ensures p.result.Err? ==> p.accounts == accounts && p.ledger == ledger
    // it succeeds exactly when every check passes
    ensures p.result.Ok? <==>
      && GetUserAccount(accounts, fromUserId).Ok?
      && amount <= accounts[GetUserAccount(accounts, fromUserId).value].balance
      && FindByNumber(accounts, toAccountNumber).Some?
      && FindByNumber(accounts, toAccountNumber).value != GetUserAccount(accounts, fromUserId).value
    ensures p.result.Ok? ==>
      var s := GetUserAccount(accounts, fromUserId).value;
      var t := FindByNumber(accounts, toAccountNumber).value;
      && s != t && amount <= accounts[s].balance
      && p == TransferPosting(accounts, ledger, s, t, amount, description, now)
  {
    match GetUserAccount(accounts, fromUserId)
    case Err(e) => Posting(accounts, ledger, Err(e))
    case Ok(s) =>
      if accounts[s].balance < amount then Posting(accounts, ledger, Err(InsufficientFunds))
      else match FindByNumber(accounts, toAccountNumber)
        case None => Posting(accounts, ledger, Err(RecipientNotFound))
        case Some(t) =>
          if s == t then Posting(accounts, ledger, Err(SameAccountTransfer))
          else TransferPosting(accounts, ledger, s, t, amount, description, now)
  }

  /** The two legs of a transfer between accounts `s` and `t`, posted. */
  function TransferPosting(accounts: seq<Account>, ledger: seq<TxRecord>, s: AccountId, t: AccountId, amount: real,
                           description: Option<string>, now: int): (p: Posting)
    requires s < |accounts| && t < |accounts| && s != t
    ensures |p.accounts| == |accounts|
    ensures p.accounts[s] == accounts[s].(balance := accounts[s].balance - amount)
    ensures p.accounts[t] == accounts[t].(balance := accounts[t].balance + amount)
    ensures forall j :: 0 <= j < |accounts| && j != s && j != t ==> p.accounts[j] == accounts[j]
    ensures |p.ledger| == |ledger| + 2 && p.ledger[..|ledger|] == ledger
    ensures p.result == Ok(Receipt(|ledger|, p.ledger[|ledger|]))
  {
    var debit := TxRecord(s, Transfer, amount, description, accounts[s].balance, accounts[s].balance - amount,
                          Some(t), Completed, now);
    var credit := TxRecord(t, Transfer, amount, Some(TransferMemo(accounts[s].accountNumber)),
                           accounts[t].balance, accounts[t].balance + amount, Some(s), Completed, now);
    Posting(SetBalance(SetBalance(accounts, s, debit.balanceAfter), t, credit.balanceAfter),
            ledger + [debit, credit], Ok(Receipt(|ledger|, debit)))
  }

  /** Posting a transfer conserves the money held. */
  lemma {:induction false} TransferPostingConserves(accounts: seq<Account>, ledger: seq<TxRecord>, s: AccountId, t: AccountId,
                                                    amount: real, description: Option<string>, now: int)
    requires s < |accounts| && t < |accounts| && s != t
    ensures Total(TransferPosting(accounts, ledger, s, t, amount, description, now).accounts) == Total(accounts)
  {
    var debited := SetBalance(accounts, s, accounts[s].balance - amount);
    TotalSetBalance(accounts, s, accounts[s].balance - amount);
    TotalSetBalance(debited, t, accounts[t].balance + amount);
  }

  /** A successful transfer moves `amount` from the sender to the
      recipient, leaves every other account as it was, and conserves the
      money held. */
  lemma TransferMovesAmount(accounts: seq<Account>, ledger: seq<TxRecord>, fromUserId: UserId,
                            toAccountNumber: string, amount: real, description: Option<string>, now: int)
    ensures
      var p := TransferOutcome(accounts, ledger, fromUserId, toAccountNumber, amount, description, now);
      p.result.Ok? ==>
        var s := GetUserAccount(accounts, fromUserId).value;
        var t := FindByNumber(accounts, toAccountNumber).value;
        && |p.accounts| == |accounts|
        && p.accounts[s].balance == accounts[s].balance - amount
        && p.accounts[t].balance == accounts[t].balance + amount
        && p.accounts[s].balance >= 0.0
        && (forall j :: 0 <= j < |accounts| && j != s && j != t ==> p.accounts[j] == accounts[j])
        && Total(p.accounts) == Total(accounts)
  {
    var p := TransferOutcome(accounts, ledger, fromUserId, toAccountNumber, amount, description, now);
    if p.result.Ok? {
      var s := GetUserAccount(accounts, fromUserId).value;
      var t := FindByNumber(accounts, toAccountNumber).value;
      TransferPostingConserves(accounts, ledger, s, t, amount, description, now);
    }
  }

  /** A transfer appends two legs: equal amounts, each naming the other
      account as counterparty, both completed; the debit leg is returned. */
  lemma TransferLegsMirror(accounts: seq<Account>, ledger: seq<TxRecord>, fromUserId: UserId,
                           toAccountNumber: string, amount: real, description: Option<string>, now: int)
    ensures
      var p := TransferOutcome(accounts, ledger, fromUserId, toAccountNumber, amount, description, now);
      p.result.Ok? ==>
        var s := GetUserAccount(accounts, fromUserId).value;
        var t := FindByNumber(accounts, toAccountNumber).value;
        var debit := p.ledger[|ledger|];
        var credit := p.ledger[|ledger| + 1];
        && p.result.value.record == debit
        && debit.accountId == s && credit.accountId == t
        && debit.recipientAccountId == Some(t) && credit.recipientAccountId == Some(s)
        && debit.amount == amount && credit.amount == amount
        && debit.transactionType == Transfer && credit.transactionType == Transfer
        && debit.balanceBefore == accounts[s].balance && debit.balanceAfter == p.accounts[s].balance
        && credit.balanceBefore == accounts[t].balance && credit.balanceAfter == p.accounts[t].balance
        && debit.description == description && credit.description == Some(TransferMemo(accounts[s].accountNumber))
        && debit.status == Completed && credit.status == Completed
  {
    var p := TransferOutcome(accounts, ledger, fromUserId, toAccountNumber, amount, description, now);
    if p.result.Ok? {
      var s := GetUserAccount(accounts, fromUserId).value;
      var t := FindByNumber(accounts, toAccountNumber).value;
      assert p == TransferPosting(accounts, ledger, s, t, amount, description, now);
    }
  }

  /** Marking the two freshly inserted legs `completed` in place. */
  lemma CompletingBothLegs(ledger: seq<TxRecord>, debit: TxRecord, credit: TxRecord)
    ensures
      var n := |ledger|;
      var inserted := ledger + [debit, credit];
      var once := inserted[n := inserted[n].(status := Completed)];
      once[n + 1 := once[n + 1].(status := Completed)] == ledger + [debit.(status := Completed), credit.(status := Completed)]
  {
  }

  /** `user_transfer` up to its checks. */
  method UserTransfer(db: Database, fromUserId: UserId, toAccountNumber: string, amount: real,
                      description: Option<string>, now: int) returns (r: Result<Receipt, Error>)
    modifies db
    ensures db.users == old(db.users)
    ensures Posting(db.accounts, db.transactions, r)
         == TransferOutcome(old(db.accounts), old(db.transactions), fromUserId, toAccountNumber, amount, description, now)
  {
    var from := GetUserAccount(db.accounts, fromUserId);
    if from.Err? {
      return Err(from.error);
    }
    var s := from.value;
    if db.accounts[s].balance < amount {
      return Err(InsufficientFunds);
    }
    var to := FindByNumber(db.accounts, toAccountNumber);
    if to.None? {
      return Err(RecipientNotFound);
    }
    var t := to.value;
    if s == t {
      return Err(SameAccountTransfer);
    }
    var receipt := PostTransfer(db, s, t, amount, description, now);
    r := Ok(receipt);
  }

  /** The session of `user_transfer`: both balances are set, both legs
      inserted `pending` and then marked `completed`; the sender's leg is
      returned. */
  method PostTransfer(db: Database, s: AccountId, t: AccountId, amount: real, description: Option<string>, now: int)
    returns (receipt: Receipt)
    requires s < |db.accounts| && t < |db.accounts| && s != t
    modifies db
    ensures db.users == old(db.users)
    ensures Posting(db.accounts, db.transactions, Ok(receipt))
         == TransferPosting(old(db.accounts), old(db.transactions), s, t, amount, description, now)
  {
    var sender, recipient := db.accounts[s], db.accounts[t];
    var debit := TxRecord(s, Transfer, amount, description, sender.balance, sender.balance - amount,
                          Some(t), Pending, now);
    var credit := TxRecord(t, Transfer, amount, Some(TransferMemo(sender.accountNumber)),
                           recipient.balance, recipient.balance + amount, Some(s), Pending, now);
    db.accounts := SetBalance(db.accounts, s, debit.balanceAfter);
    db.accounts := SetBalance(db.accounts, t, credit.balanceAfter);
    var debitId := |db.transactions|;
    db.transactions := db.transactions + [debit];
    var creditId := |db.transactions|;
    db.transactions := db.transactions + [credit];
    db.transactions := db.transactions[debitId := db.transactions[debitId].(status := Completed)];
    db.transactions := db.transactions[creditId := db.transactions[creditId].(status := Completed)];
    CompletingBothLegs(old(db.transactions), debit, credit);
    receipt := Receipt(debitId, debit.(status := Completed));
  }

  // ---- get_user_transactions ----

  /** `if transaction_type:` — an absent or empty kind does not filter. */
  predicate KindFilterOff(kind: Option<string>)
  {
    kind.None? || kind.value == ""
  }

  /** The query document: the account, and the kind when one is given. */
  predicate Matches(accountId: AccountId, kind: Option<string>, r: TxRecord)
  {
    r.accountId == accountId && (KindFilterOff(kind) || KindName(r.transactionType) == kind.value)
  }

  /** The elements of `s` that satisfy `p`, in order. */
  function Filter<T>(s: seq<T>, p: T -> bool): seq<T>
  {
    if |s| == 0 then [] else Filter(s[..|s| - 1], p) + (if p(s[|s| - 1]) then [s[|s| - 1]] else [])
  }

  /** Filtering keeps every element that satisfies `p` exactly as often as
      it occurs, and nothing else. */
  lemma {:induction false} FilterCounts<T>(s: seq<T>, p: T -> bool, x: T)
    ensures multiset(Filter(s, p))[x] == if p(x) then multiset(s)[x] else 0
  {
    if |s| > 0 {
      var prefix, last := s[..|s| - 1], s[|s| - 1];
      FilterCounts(prefix, p, x);
      assert s == prefix + [last];
    }
  }

  /** The records the query selects, in collection order. */
  function Selected(ledger: seq<TxRecord>, accountId: AccountId, kind: Option<string>): seq<TxRecord>
  {
    Filter(ledger, r => Matches(accountId, kind, r))
  }

  /** The selection holds every matching record exactly as often as the
      collection does, and nothing else. */
  lemma SelectedCounts(ledger: seq<TxRecord>, accountId: AccountId, kind: Option<string>, x: TxRecord)
    ensures multiset(Selected(ledger, accountId, kind))[x] == if Matches(accountId, kind, x) then multiset(ledger)[x] else 0
  {
    FilterCounts(ledger, r => Matches(accountId, kind, r), x);
  }

  /** Newest first: `timestamp` never increases along the sequence. */
  ghost predicate NewestFirst(s: seq<TxRecord>)
  {
    forall i, j :: 0 <= i < j < |s| ==> s[i].timestamp >= s[j].timestamp
  }

  function InsertByTime(x: TxRecord, s: seq<TxRecord>): (r: seq<TxRecord>)
    requires NewestFirst(s)
    ensures NewestFirst(r)
    ensures multiset(r) == multiset(s) + multiset{x}
    ensures |r| == |s| + 1
    ensures |s| > 0 ==> r[0] == x || r[0] == s[0]
  {
    if |s| == 0 || x.timestamp >= s[0].timestamp then [x] + s
    else
      var rest := InsertByTime(x, s[1..]);
      assert s == [s[0]] + s[1..];
      [s[0]] + rest
  }

  /** The intended order of the history: newest first by `timestamp`;
      records stamped at the same instant keep their collection order. */
  function SortNewestFirst(s: seq<TxRecord>): (r: seq<TxRecord>)
    ensures NewestFirst(r)
    ensures multiset(r) == multiset(s)
    ensures |r| == |s|
  {
    if |s| == 0 then []
    else
      assert s == [s[0]] + s[1..];
      InsertByTime(s[0], SortNewestFirst(s[1..]))
  }

  /** How many of `available` documents `.skip(skip).limit(limit)` yields,
      with the driver's reading of `limit`: zero means no limit, a negative
      limit caps at its magnitude. */
  function PageSize(available: nat, skip: nat, limit: int): nat
  {
    var left := if skip <= available then available - skip else 0;
    if limit == 0 then left
    else if limit > 0 then (if limit < left then limit else left)
    else (if -limit < left then -limit else left)
  }

  /** `.skip(skip).limit(limit)`. */
  function Page(s: seq<TxRecord>, skip: nat, limit: int): (r: seq<TxRecord>)
    ensures |r| == PageSize(|s|, skip, limit)
    ensures forall k :: 0 <= k < |r| ==> skip + k < |s| && r[k] == s[skip + k]
  {
    var rest := if skip <= |s| then s[skip..] else [];
    var cap := if limit == 0 then |rest| else if limit > 0 then limit else -limit;
    if cap < |rest| then rest[..cap] else rest
  }

  function History(accounts: seq<Account>, ledger: seq<TxRecord>, userId: UserId, skip: int := 0, limit: int := 10,
                   kind: Option<string> := None): (r: Result<seq<TxRecord>, Error>)
    ensures r == Err(AccountNotFound) <==> GetUserAccount(accounts, userId).Err?
    ensures r == Err(NegativeSkip) <==> GetUserAccount(accounts, userId).Ok? && skip < 0
    ensures r.Ok? <==> GetUserAccount(accounts, userId).Ok? && skip >= 0
    ensures r.Ok? ==>
      var i := GetUserAccount(accounts, userId).value;
      && (forall k :: 0 <= k < |r.value| ==> Matches(i, kind, r.value[k]))
      && NewestFirst(r.value)
      && |r.value| == PageSize(|Selected(ledger, i, kind)|, skip, limit)
      && r.value == Page(SortNewestFirst(Selected(ledger, i, kind)), skip, limit)
  {
    match GetUserAccount(accounts, userId)
    case Err(e) => Err(e)
    case Ok(i) =>
      if skip < 0 then Err(NegativeSkip)
      else
        var sorted := SortNewestFirst(Selected(ledger, i, kind));
        var page := Page(sorted, skip, limit);
        assert |page| == PageSize(|Selected(ledger, i, kind)|, skip, limit);
        assert forall k :: 0 <= k < |page| ==> Matches(i, kind, page[k]) by {
          forall k | 0 <= k < |page| {
            PageRecordMatches(ledger, i, kind, skip, limit, k);
          }
        }
        PageNewestFirst(SortNewestFirst(Selected(ledger, i, kind)), skip, limit);
        Ok(page)
  }

  lemma PageRecordMatches(ledger: seq<TxRecord>, accountId: AccountId, kind: Option<string>, skip: nat, limit: int, k: nat)
    ensures
      var page := Page(SortNewestFirst(Selected(ledger, accountId, kind)), skip, limit);
      k < |page| ==> Matches(accountId, kind, page[k])
  {
    var selected := Selected(ledger, accountId, kind);
    var page := Page(SortNewestFirst(selected), skip, limit);
    if k < |page| {
      var x := SortNewestFirst(selected)[skip + k];
      assert x in multiset(SortNewestFirst(selected));
      SelectedCounts(ledger, accountId, kind, x);
    }
  }

  lemma PageNewestFirst(s: seq<TxRecord>, skip: nat, limit: int)
    requires NewestFirst(s)
    ensures NewestFirst(Page(s, skip, limit))
  {
    var r := Page(s, skip, limit);
    forall a, b | 0 <= a < b < |r|
      ensures r[a].timestamp >= r[b].timestamp
    {
      assert r[a] == s[skip + a] && r[b] == s[skip + b];
    }
  }

  /** Every record of the history is a stored record. */
  lemma HistoryRecordIsStored(accounts: seq<Account>, ledger: seq<TxRecord>, userId: UserId, skip: int, limit: int,
                              kind: Option<string>, k: nat)
    ensures
      var r := History(accounts, ledger, userId, skip, limit, kind);
      r.Ok? && k < |r.value| ==> r.value[k] in ledger
  {
    var r := History(accounts, ledger, userId, skip, limit, kind);
    if r.Ok? && k < |r.value| {
      var i := GetUserAccount(accounts, userId).value;
      var sorted := SortNewestFirst(Selected(ledger, i, kind));
      assert r.value[k] == sorted[skip + k];
      assert r.value[k] in multiset(sorted);
      SelectedCounts(ledger, i, kind, r.value[k]);
    }
  }

  /** With no skip and no limit the history holds every record of the
      account that passes the kind filter, each as often as it was stored. */
  lemma HistoryIsComplete(accounts: seq<Account>, ledger: seq<TxRecord>, userId: UserId, kind: Option<string>)
    requires GetUserAccount(accounts, userId).Ok?
    ensures
      var i := GetUserAccount(accounts, userId).value;
      var r := History(accounts, ledger, userId, 0, 0, kind);
      r.Ok? && forall x :: multiset(r.value)[x] == if Matches(i, kind, x) then multiset(ledger)[x] else 0
  {
    var i := GetUserAccount(accounts, userId).value;
    var sorted := SortNewestFirst(Selected(ledger, i, kind));
    assert Page(sorted, 0, 0) == sorted;
    forall x {
      SelectedCounts(ledger, i, kind, x);
    }
  }

  /** `get_user_transactions`: the cursor's documents are appended to the
      result one by one. */
  method GetUserTransactions(db: Database, userId: UserId, skip: int := 0, limit: int := 10, kind: Option<string> := None)
    returns (r: Result<seq<TxRecord>, Error>)
    ensures r == History(db.accounts, db.transactions, userId, skip, limit, kind)
  {
    var found := GetUserAccount(db.accounts, userId);
    if found.Err? {
      return Err(found.error);
    }
    if skip < 0 {
      return Err(NegativeSkip);
    }
    var cursor := Page(SortNewestFirst(Selected(db.transactions, found.value, kind)), skip, limit);
    var page: seq<TxRecord> := [];
    var k := 0;
    while k < |cursor|
      invariant 0 <= k <= |cursor|
      invariant page == cursor[..k]
    {
      page := page + [cursor[k]];
      k := k + 1;
    }
    assert page == cursor;
    r := Ok(page);
  }

  // ---- get_user_transactions as written ----

  /** The history as the query is written: `.sort("created_at", -1)` names
      a field no ledger record has, so every record ties and the sort puts
      them in no particular order. The model takes collection order, one of
      the orders MongoDB may return for ties. `History` is the intended,
      newest-first version. */
  function HistoryAsWritten(accounts: seq<Account>, ledger: seq<TxRecord>, userId: UserId, skip: int := 0,
                            limit: int := 10, kind: Option<string> := None): (r: Result<seq<TxRecord>, Error>)
    ensures r.Err? <==> History(accounts, ledger, userId, skip, limit, kind).Err?
    ensures r.Err? ==> r == History(accounts, ledger, userId, skip, limit, kind)
    ensures r.Ok? ==>
      var i := GetUserAccount(accounts, userId).value;
      && |r.value| == PageSize(|Selected(ledger, i, kind)|, skip, limit)
      && forall k :: 0 <= k < |r.value| ==>
           skip + k < |Selected(ledger, i, kind)| && r.value[k] == Selected(ledger, i, kind)[skip + k]
  {
    match GetUserAccount(accounts, userId)
    case Err(e) => Err(e)
    case Ok(i) =>
      if skip < 0 then Err(NegativeSkip)
      else Ok(Page(Selected(ledger, i, kind), skip, limit))
  }

  /** A two-record ledger of one account, unfiltered, is selected whole. */
  lemma SelectedOfTwo(a: TxRecord, b: TxRecord)
    requires a.accountId == 0 && b.accountId == 0
    ensures Selected([a, b], 0, None) == [a, b]
  {
    assert Matches(0, None, a) && Matches(0, None, b);
    assert [a, b][..1] == [a];
    assert [a][..0] == [];
    assert Selected([], 0, None) == [];
    assert Selected([a], 0, None) == Selected([], 0, None) + [a];
    assert Selected([a, b], 0, None) == Selected([a], 0, None) + [b];
  }

  /** Sorting two records stored oldest first reverses them. */
  lemma SortOfTwo(a: TxRecord, b: TxRecord)
    requires a.timestamp < b.timestamp
    ensures SortNewestFirst([a, b]) == [b, a]
  {
    assert [a, b][1..] == [b];
    assert [b][1..] == [];
  }

  /** Two deposits to one account, stamped at times 1 and 2 and stored in
      that order: the query as written lists the older one first, while the
      intended history lists the newer one first. */
  lemma HistoryAsWrittenNotNewestFirst()
    ensures
      var accounts := [Account(0, Savings, "0123456789", 2.0, true, "NGN")];
      var older := TxRecord(0, Deposit, 1.0, None, 0.0, 1.0, None, Completed, 1);
      var newer := TxRecord(0, Deposit, 1.0, None, 1.0, 2.0, None, Completed, 2);
      var r := HistoryAsWritten(accounts, [older, newer], 0);
      && r == Ok([older, newer]) && !NewestFirst(r.value)
      && History(accounts, [older, newer], 0) == Ok([newer, older])
  {
    var accounts := [Account(0, Savings, "0123456789", 2.0, true, "NGN")];
    var older := TxRecord(0, Deposit, 1.0, None, 0.0, 1.0, None, Completed, 1);
    var newer := TxRecord(0, Deposit, 1.0, None, 1.0, 2.0, None, Completed, 2);
    assert GetUserAccount(accounts, 0) == Ok(0);
    SelectedOfTwo(older, newer);
    SortOfTwo(older, newer);
    assert Page([older, newer], 0, 10) == [older, newer];
    assert Page([newer, older], 0, 10) == [newer, older];
  }
}
