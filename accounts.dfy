/** app/services/account.py: opening an account (binding the user's BVN,
    one account per account type, a fresh ten-digit account number) and
    looking up a user's account and balance.

    `random.choices` is a parameter: `draws` lists the ten-digit strings
    the retry loop of `generate_account_number` would try, in order. */
module Accounts {
  import opened Wrappers
  import opened Models
  import opened Schemas

  predicate OwnedBy(userId: UserId, a: Account)
  {
    a.userId == userId
  }

  /** `get_user_account`: the first account the user owns. */
  function GetUserAccount(accounts: seq<Account>, userId: UserId): (r: Result<AccountId, Error>)
    ensures r.Ok? ==> r.value < |accounts| && accounts[r.value].userId == userId
    ensures r.Ok? ==> forall j :: 0 <= j < r.value ==> accounts[j].userId != userId
    ensures r.Err? <==> forall j :: 0 <= j < |accounts| ==> accounts[j].userId != userId
    ensures r.Err? ==> r.error == AccountNotFound
  {
    match FirstIndex(accounts, a => OwnedBy(userId, a))
    case None => Err(AccountNotFound)
    case Some(i) => Ok(i)
  }

  /** `get_user_balance`: the balance of the account `get_user_account` finds. */
  function GetUserBalance(accounts: seq<Account>, userId: UserId): (r: Result<real, Error>)
    ensures r.Err? <==> forall j :: 0 <= j < |accounts| ==> accounts[j].userId != userId
    ensures r.Err? ==> r.error == AccountNotFound
    ensures r.Ok? ==> exists i :: 0 <= i < |accounts| && accounts[i].userId == userId && r.value == accounts[i].balance
    ensures r.Ok? ==> r.value == accounts[GetUserAccount(accounts, userId).value].balance
  {
    match GetUserAccount(accounts, userId)
    case Err(e) => Err(e)
    case Ok(i) => Ok(accounts[i].balance)
  }

  predicate Numbered(number: string, a: Account)
  {
    a.accountNumber == number
  }

  predicate NumberInUse(accounts: seq<Account>, number: string)
  {
    exists j :: 0 <= j < |accounts| && accounts[j].accountNumber == number
  }

  /** The `find_one({"account_number": ...})` of the transfer and of the
      number generator. */
  function FindByNumber(accounts: seq<Account>, number: string): (r: Option<AccountId>)
    ensures r.Some? ==> r.value < |accounts| && accounts[r.value].accountNumber == number
    ensures r.None? <==> !NumberInUse(accounts, number)
  {
    FirstIndex(accounts, a => Numbered(number, a))
  }

  /** The number `generate_account_number` returns: the first draw no
      account uses yet. */
  function FirstUnusedDraw(accounts: seq<Account>, draws: seq<string>): (r: Option<string>)
  {
    match FirstIndex(draws, d => !NumberInUse(accounts, d))
    case None => None
    case Some(k) => Some(draws[k])
  }

  /** `generate_account_number`: retry random ten-digit strings until one
      is unused. */
  method GenerateAccountNumber(accounts: seq<Account>, draws: seq<string>) returns (r: Option<string>)
    requires forall k :: 0 <= k < |draws| ==> IsAccountNumber(draws[k])
    ensures r.Some? ==> IsAccountNumber(r.value) && !NumberInUse(accounts, r.value)
    ensures r.Some? ==> exists k :: 0 <= k < |draws| && draws[k] == r.value
                                    && forall j :: 0 <= j < k ==> NumberInUse(accounts, draws[j])
    ensures r.None? <==> forall k :: 0 <= k < |draws| ==> NumberInUse(accounts, draws[k])
    ensures r == FirstUnusedDraw(accounts, draws)
  {
    var i := 0;
    while i < |draws|
      invariant 0 <= i <= |draws|
      invariant forall k :: 0 <= k < i ==> NumberInUse(accounts, draws[k])
    {
      var candidate := draws[i];
      var existing := FindByNumber(accounts, candidate);
      if existing.None? {
        ghost var first := FirstIndex(draws, d => !NumberInUse(accounts, d));
        assert first.Some? && first.value == i;
        return Some(candidate);
      }
      i := i + 1;
    }
    return None;
  }

  // ---- create_account_for_user ----

  /** `if not current_user.bvn`: no BVN, or an empty one. */
  predicate BvnUnset(u: User)
  {
    u.bvn.None? || u.bvn.value == ""
  }

  predicate HasAccountOfType(accounts: seq<Account>, userId: UserId, accountType: AccountType)
  {
    exists j :: 0 <= j < |accounts| && accounts[j].userId == userId && accounts[j].accountType == accountType
  }

  /** The document `create_account_for_user` inserts. */
  function Opened(userId: UserId, accountType: AccountType, number: string): (a: Account)
    ensures a.userId == userId && a.accountType == accountType && a.accountNumber == number
    ensures a.balance == 0.0 && a.isActive && a.currency == "NGN"
  {
    Account(userId, accountType, number, 0.0, true, "NGN")
  }

  datatype Opening = Opening(users: seq<User>, accounts: seq<Account>, result: Result<AccountId, Error>)

  function CreateAccountOutcome(users: seq<User>, accounts: seq<Account>, userId: UserId, bvn: string,
                                accountType: AccountType, draws: seq<string>): (o: Opening)
    requires userId < |users|
    requires forall k :: 0 <= k < |draws| ==> IsAccountNumber(draws[k])
    // the BVN check comes first, and a mismatch changes nothing
    ensures o.result == Err(BvnMismatch) <==> !BvnUnset(users[userId]) && users[userId].bvn.value != bvn
    ensures o.result == Err(BvnMismatch) ==> o.users == users
    // otherwise an unset BVN is stored, whatever happens next
    ensures o.result != Err(BvnMismatch) ==>
      o.users == if BvnUnset(users[userId]) then users[userId := users[userId].(bvn := Some(bvn))] else users
    ensures o.result == Err(DuplicateAccount(accountType)) <==>
      o.result != Err(BvnMismatch) && HasAccountOfType(accounts, userId, accountType)
    ensures o.result.Err? ==> o.accounts == accounts
    // and it succeeds exactly when every check passes and some draw is unused
    ensures o.result.Ok? <==>
      && (BvnUnset(users[userId]) || users[userId].bvn.value == bvn)
      && !HasAccountOfType(accounts, userId, accountType)
      && exists k :: 0 <= k < |draws| && !NumberInUse(accounts, draws[k])
    ensures o.result.Ok? ==>
      && !HasAccountOfType(accounts, userId, accountType)
      && o.result.value == |accounts|
      && |o.accounts| == |accounts| + 1
      && o.accounts[..|accounts|] == accounts
      && o.accounts[|accounts|] == Opened(userId, accountType, o.accounts[|accounts|].accountNumber)
      && IsAccountNumber(o.accounts[|accounts|].accountNumber)
      && !NumberInUse(accounts, o.accounts[|accounts|].accountNumber)
      && Some(o.accounts[|accounts|].accountNumber) == FirstUnusedDraw(accounts, draws)
    ensures o.result == Err(NoUnusedAccountNumber) <==>
      o.result != Err(BvnMismatch) && !HasAccountOfType(accounts, userId, accountType)
      && forall k :: 0 <= k < |draws| ==> NumberInUse(accounts, draws[k])
  {
    var u := users[userId];
    if !BvnUnset(u) && u.bvn.value != bvn then
      Opening(users, accounts, Err(BvnMismatch))
    else
      var users' := if BvnUnset(u) then users[userId := u.(bvn := Some(bvn))] else users;
      if HasAccountOfType(accounts, userId, accountType) then
        Opening(users', accounts, Err(DuplicateAccount(accountType)))
      else
        match FirstUnusedDraw(accounts, draws)
        case None => Opening(users', accounts, Err(NoUnusedAccountNumber))
        case Some(number) =>
          Opening(users', accounts + [Opened(userId, accountType, number)], Ok(|accounts|))
  }

  /** `create_account_for_user` for the authenticated user `userId`. */
  method CreateAccountForUser(db: Database, userId: UserId, bvn: string, accountType: AccountType, draws: seq<string>)
    returns (r: Result<AccountId, Error>)
    requires userId < |db.users|
    requires forall k :: 0 <= k < |draws| ==> IsAccountNumber(draws[k])
    modifies db
    ensures db.transactions == old(db.transactions)
    ensures Opening(db.users, db.accounts, r) == CreateAccountOutcome(old(db.users), old(db.accounts), userId, bvn, accountType, draws)
  {
    var current := db.users[userId];
    if BvnUnset(current) {
      db.users := db.users[userId := current.(bvn := Some(bvn))];
    } else if current.bvn.value != bvn {
      return Err(BvnMismatch);
    }
    if HasAccountOfType(db.accounts, userId, accountType) {
      return Err(DuplicateAccount(accountType));
    }
    var number := GenerateAccountNumber(db.accounts, draws);
    if number.None? {
      return Err(NoUnusedAccountNumber);
    }
    r := Ok(|db.accounts|);
    db.accounts := db.accounts + [Opened(userId, accountType, number.value)];
  }

  // ---- invariants of the accounts collection ----

  /** At most one account per (user, account type). */
  ghost predicate OnePerType(accounts: seq<Account>)
  {
    forall i, j :: 0 <= i < j < |accounts| ==>
      accounts[i].userId != accounts[j].userId || accounts[i].accountType != accounts[j].accountType
  }

  /** No two accounts share an account number. */
  ghost predicate DistinctNumbers(accounts: seq<Account>)
  {
    forall i, j :: 0 <= i < j < |accounts| ==> accounts[i].accountNumber != accounts[j].accountNumber
  }

  lemma CreateAccountKeepsOnePerType(users: seq<User>, accounts: seq<Account>, userId: UserId, bvn: string,
                                     accountType: AccountType, draws: seq<string>)
    requires userId < |users|
    requires forall k :: 0 <= k < |draws| ==> IsAccountNumber(draws[k])
    requires OnePerType(accounts)
    ensures OnePerType(CreateAccountOutcome(users, accounts, userId, bvn, accountType, draws).accounts)
  {
    var o := CreateAccountOutcome(users, accounts, userId, bvn, accountType, draws);
    if o.result.Ok? {
      forall i | 0 <= i < |accounts|
        ensures o.accounts[i].userId != userId || o.accounts[i].accountType != accountType
      {
        assert o.accounts[i] == accounts[i];
      }
    }
  }

  lemma CreateAccountKeepsNumbersDistinct(users: seq<User>, accounts: seq<Account>, userId: UserId, bvn: string,
                                          accountType: AccountType, draws: seq<string>)
    requires userId < |users|
    requires forall k :: 0 <= k < |draws| ==> IsAccountNumber(draws[k])
    requires DistinctNumbers(accounts)
    ensures DistinctNumbers(CreateAccountOutcome(users, accounts, userId, bvn, accountType, draws).accounts)
  {
    var o := CreateAccountOutcome(users, accounts, userId, bvn, accountType, draws);
    if o.result.Ok? {
      forall i | 0 <= i < |accounts|
        ensures o.accounts[i].accountNumber != o.accounts[|accounts|].accountNumber
      {
        assert o.accounts[i] == accounts[i];
      }
    }
  }

  /** Asking for a second account of a type the user already holds fails,
      and the accounts are untouched. */
  lemma {:induction false} SecondAccountOfTypeRejected(users: seq<User>, accounts: seq<Account>, userId: UserId, bvn: string,
                                                      accountType: AccountType, draws: seq<string>, draws2: seq<string>)
    requires userId < |users|
    requires forall k :: 0 <= k < |draws| ==> IsAccountNumber(draws[k])
    requires forall k :: 0 <= k < |draws2| ==> IsAccountNumber(draws2[k])
    requires CreateAccountOutcome(users, accounts, userId, bvn, accountType, draws).result.Ok?
    ensures
      var o := CreateAccountOutcome(users, accounts, userId, bvn, accountType, draws);
      var o2 := CreateAccountOutcome(o.users, o.accounts, userId, bvn, accountType, draws2);
      o2.result == Err(DuplicateAccount(accountType)) && o2.accounts == o.accounts && o2.users == o.users
  {
    var o := CreateAccountOutcome(users, accounts, userId, bvn, accountType, draws);
    assert o.accounts[|accounts|].userId == userId && o.accounts[|accounts|].accountType == accountType;
    assert HasAccountOfType(o.accounts, userId, accountType);
    assert o.users[userId].bvn == Some(bvn) || (!BvnUnset(users[userId]) && users[userId].bvn.value == bvn);
  }
}
