# user_money: a verified model of the account ledger

This project models the core of `user_money`, a FastAPI and MongoDB
service. Each user holds single-currency (NGN) bank accounts. Money enters
by deposit, leaves by withdrawal and moves between accounts by a two-leg
transfer. Every movement is logged in a ledger of transaction records,
each with the balance before and after it.

Beside the ledger the model covers:
- the user lifecycle: registration, e-mail verification, password reset, profile update and token authentication;
- the request validators;
- an older duplicate account service.

The model is written in Dafny:
- The three MongoDB collections (`users`, `accounts`, `transactions`) are
  the sequence fields of one `Models.Database` object. A document's id is
  its position in its collection, and `find_one` takes the first match in
  collection order (`Models.FirstIndex`).
- Every state-changing service function has two parts:
  - a pure `…Outcome` function over the collections, which the lemmas
    are about;
  - an imperative method on the `Database` whose postcondition ties the
    new state and the result to that function.
- The older service in `services/account.py` has its own collection. It is
  the field of the class `LegacyAccounts.AccountService`.
- HTTP errors are `Models.Error` values. `Models.StatusCode` and
  `Models.Detail` give the status code and message the services raise.
  Four of the errors are not raised by the services with a message; for
  them the status and the detail are the model's own wording:
  - `NoUnusedAccountNumber`: the source keeps drawing numbers forever;
  - `UnknownAccountId`: the older service hands a missing document to its
    serializer;
  - `NegativeSkip`: the database driver's `ValueError`, which the client
    sees as a plain server error;
  - `MailerFailed`: the mailer's own exception, which also reaches the
    client as a plain server error.
- Balances and amounts are `real`, so addition and subtraction are exact.
  Python's `Decimal` rounds to its context precision (28 significant
  digits by default); see "Left out".

Modules, one per source file:
- `wrappers.dfy`: `Option` and `Result`.
- `models.dfy`: the documents, the errors and the database object.
- `schemas.dfy`: the three files of `app/schemas`.
- `security.dfy`: `app/core/security.py`.
- `auth.dfy`: `app/services/auth.py`.
- `accounts.dfy`: `app/services/account.py`.
- `transactions.dfy`: `app/services/transaction.py`.
- `legacy_accounts.dfy`: `services/account.py`.
- `bank.dfy`: the joint invariant of accounts and ledger (`Bank.Books`), and its preservation by every operation.

`Bank.Books` says:
- no account is overdrawn;
- every record is completed and consistent with its kind, and belongs to an existing account;
- every record starts from the balance its account's earlier records left;
- every balance equals the net movement of its account's records.

## Model

| member | source | states |
|---|---|---|
| Models.FirstIndex | app/services/account.py:69 | `find_one`: a found index holds a match and no earlier element matches; none is found exactly when nothing matches |
| Models.Database.constructor | app/database.py:12-14 | the three collections start empty |
| Schemas.AllDigits | app/schemas/account.py:11 | true exactly when every character is a decimal digit |
| Schemas.ValidateBvn | app/schemas/account.py:9-13 | a BVN is accepted exactly when it has 11 characters, all digits; an accepted BVN comes back unchanged |
| Schemas.ParseAccountType | app/schemas/account.py:7 | only "savings" and "current" are accepted, each as the account type of that name |
| Schemas.ParseAccountTypeName | app/schemas/account.py:7 | every account type's name is accepted as that type |
| Schemas.NewCreateAccount | app/schemas/account.py:5-13 | a request is valid exactly when the BVN and account type are; the type defaults to "savings" |
| Schemas.NewCreateAccountDefaultsToSavings | app/schemas/account.py:7 | a request with a valid BVN and no account type asks for a savings account |
| Schemas.NewTransactionRequest | app/schemas/transaction.py:6-8 | valid exactly when the amount is strictly positive; the description defaults to none |
| Schemas.NewTransferRequest | app/schemas/transaction.py:11-14 | valid exactly when the account number has exactly 10 characters and the amount is strictly positive |
| Schemas.AccountNumbersAreAddressable | app/schemas/transaction.py:12 | every generated ten-digit account number passes the transfer request's length check |
| Schemas.NewUserCreate | app/schemas/user.py:5-9 | valid exactly when the password has at least 8 characters and the full name at least 2; the phone number is unconstrained |
| Schemas.NewUserUpdate | app/schemas/user.py:12-14 | valid exactly when the full name is null or has at least 2 characters; the field itself is required (`Field(...)`), so only an explicit null is accepted |
| Schemas.NewNewPassword | app/schemas/user.py:17-19 | every token and new password is accepted |
| Schemas.ResetAcceptsShortPassword | app/schemas/user.py:17-19 | a password too short to register with is accepted by a reset |
| Schemas.NewToken | app/schemas/user.py:22-24 | the token carries the access token and type it is given |
| Schemas.NewTokenIsBearer | app/schemas/user.py:24 | a token built without a type is a "bearer" token |
| Security.Expiry | app/core/security.py:31-34 | `exp` is now plus a given non-zero delta; with no delta, or a zero one, it is now plus 30 minutes |
| Security.AccessTokenClaims | app/core/security.py:28-36 | the claims are the caller's claims plus `exp`, every other claim unchanged (a copy is updated) |
| Security.AccessTokenOutlivesIssue | app/core/security.py:31-34 | a token without a delta, or with a non-negative one, expires after it was issued |
| Security.VerifyUserOutcome | app/core/security.py:45-56 | verification succeeds exactly when some user holds the token; the first holder becomes verified and loses the token; nobody else changes; on failure nothing changes |
| Security.VerificationTokenSingleUse | app/core/security.py:48-55 | with a single holder, a token that verified once fails the second time |
| Security.VerifyUser | app/core/security.py:45-56 | the users collection and the result are those of `VerifyUserOutcome`; the other collections are untouched |
| Auth.GetUserByEmail | app/services/auth.py:47-52 | a found user has that e-mail address; none is found exactly when no user has it |
| Auth.SameEmailsKeepDistinct | app/services/auth.py:18-22 | an update that keeps every address in place keeps addresses unique |
| Auth.Public | app/services/auth.py:45 | the returned view carries the address, name, phone and verified flag, and has no password hash or verification token |
| Auth.Registered | app/services/auth.py:24-35 | a new user is unverified, holds its verification token and the hash of its password, and has no reset token and no BVN |
| Auth.CreateUserOutcome | app/services/auth.py:17-45 | a registered address is rejected with no change; otherwise the user is stored before the e-mail is sent, and stays stored when sending fails; it succeeds exactly when the address is new and the mail is delivered, returning the public view of the stored user |
| Auth.CreateUserKeepsEmailsDistinct | app/services/auth.py:18-35 | registration keeps e-mail addresses unique |
| Auth.RegisteredUserCanVerify | app/services/auth.py:25-35 | the token stored at registration verifies the new user |
| Auth.CreateUser | app/services/auth.py:17-45 | the users collection and the result are those of `CreateUserOutcome` |
| Auth.ResendVerificationOutcome | app/services/auth.py:54-71 | an unknown user gives 404 and a verified one 400; otherwise the stored token is mailed again, and no new one is made; it succeeds exactly when the user exists, is unverified and the mail is delivered |
| Auth.GeneratePasswordResetOutcome | app/services/auth.py:73-102 | an unknown user (404) or an unverified one (400) changes nothing; otherwise the reset token and the expiry now + 1 hour are stored, and stay stored when mailing fails; it succeeds exactly when the user exists, is verified and the mail is delivered |
| Auth.GeneratePasswordReset | app/services/auth.py:73-102 | the users collection and the result are those of `GeneratePasswordResetOutcome` |
| Auth.ResetUserPasswordOutcome | app/services/auth.py:104-123 | a reset succeeds exactly when some user holds the token with an expiry strictly after now; that user gets the new hash and loses the token and the expiry; otherwise nothing changes |
| Auth.ResetTokenExpiresAfterOneHour | app/services/auth.py:87-108 | a freshly issued reset token works exactly when it is presented less than one hour after it was issued |
| Auth.ResetTokenSingleUse | app/services/auth.py:110-122 | after a successful reset the same token fails and changes nothing |
| Auth.ResetUserPassword | app/services/auth.py:104-123 | the users collection and the result are those of `ResetUserPasswordOutcome` |
| Auth.UpdateUserOutcome | app/services/auth.py:125-148 | an unknown address gives 404 with no change; only the name and phone passed change, and nothing is written when neither is passed |
| Auth.UpdateUser | app/services/auth.py:125-148 | builds the update field by field; the users collection and the result are those of `UpdateUserOutcome` |
| Auth.GetCurrentUser | app/services/auth.py:150-175 | a failed decode, a missing or null `sub`, and an unknown address are all rejected with 401; otherwise the first user with that address is returned, as `get_user_by_email` finds it |
| Auth.LoginTokenAuthenticates | app/services/auth.py:150-175 | when the decoder returns the claims login issued (the token is unexpired), `sub` set to a registered address authenticates the first user under that address |
| Accounts.GetUserAccount | app/services/account.py:68-79 | the user's first account; "Account not found" exactly when the user owns none |
| Accounts.GetUserBalance | app/services/account.py:81-83 | the balance of the account `get_user_account` finds |
| Accounts.FindByNumber | app/services/account.py:18 | a found account has that number; none is found exactly when no account uses it |
| Accounts.GenerateAccountNumber | app/services/account.py:14-20 | the retry loop returns the first drawn ten-digit number that no account uses |
| Accounts.Opened | app/services/account.py:53-62 | a new account has the caller's user id, the requested type, balance 0, is active and is in NGN |
| Accounts.CreateAccountOutcome | app/services/account.py:22-66 | a BVN mismatch is rejected with no change; an unset BVN is stored, and stays stored when a duplicate is then rejected; a second account of a type is rejected; it succeeds exactly when the BVN check passes, the type is free and some draw is unused, and the new account then gets the first unused draw |
| Accounts.CreateAccountForUser | app/services/account.py:22-66 | the users and accounts collections and the result are those of `CreateAccountOutcome` |
| Accounts.CreateAccountKeepsOnePerType | app/services/account.py:42-51 | at most one account per user and account type is kept |
| Accounts.CreateAccountKeepsNumbersDistinct | app/services/account.py:14-20 | account numbers stay unique |
| Accounts.SecondAccountOfTypeRejected | app/services/account.py:42-51 | asking again for a type just opened is rejected as a duplicate, with no change |
| Transactions.SetBalance | app/services/transaction.py:35-41 | the balance `$set` changes one account's balance and nothing else |
| Transactions.TotalSetBalance | app/services/transaction.py:35-41 | setting one balance changes the money held by exactly the difference |
| Transactions.DepositOutcome | app/services/transaction.py:13-57 | fails only when the user has no account, with no change; otherwise the balance becomes before + amount, and one completed deposit record with those before/after values is appended and returned |
| Transactions.DepositAddsAmount | app/services/transaction.py:21-41 | a deposit adds exactly its amount to the money held |
| Transactions.UserDeposit | app/services/transaction.py:13-57 | the balance is set and the record inserted as pending and then completed; the result is `DepositOutcome` |
| Transactions.WithdrawalOutcome | app/services/transaction.py:59-103 | 404 exactly when the user has no account; "Insufficient funds" exactly when balance < amount; errors change nothing; it succeeds exactly when the account exists and amount <= balance, and then the balance becomes old - amount (never negative) and one completed withdrawal record is appended |
| Transactions.WithdrawalRemovesAmount | app/services/transaction.py:67-87 | a withdrawal removes exactly its amount from the money held |
| Transactions.WithdrawWholeBalance | app/services/transaction.py:61-68 | withdrawing the whole balance is allowed and leaves 0 |
| Transactions.UserWithdrawal | app/services/transaction.py:59-103 | the balance is set and the record inserted as pending and then completed; the result is `WithdrawalOutcome` |
| Transactions.TransferOutcome | app/services/transaction.py:105-202 | the errors are ordered: no account, insufficient funds, unknown recipient number, then a transfer to oneself; every error leaves all state unchanged; it succeeds exactly when every check passes, and then posts the two legs of `TransferPosting` |
| Transactions.TransferPosting | app/services/transaction.py:138-202 | debits the sender and credits the recipient by the amount, leaves all other accounts unchanged, appends exactly two records and returns the first |
| Transactions.TransferPostingConserves | app/services/transaction.py:158-174 | the two balance writes together conserve the money held |
| Transactions.TransferMovesAmount | app/services/transaction.py:143-174 | a transfer lowers the sender and raises the recipient by the amount, leaves the sender non-negative and other accounts unchanged, and conserves the sum of balances |
| Transactions.TransferLegsMirror | app/services/transaction.py:138-202 | the two records carry equal amounts, each names the other account, the credit's memo is "Transfer from" and the sender's number, both are completed, and the sender's record is returned |
| Transactions.CompletingBothLegs | app/services/transaction.py:183-200 | marking the two inserted legs completed in place leaves both legs completed after the old ledger |
| Transactions.UserTransfer | app/services/transaction.py:105-202 | runs the checks in the source's order, then the session; the result is `TransferOutcome` |
| Transactions.PostTransfer | app/services/transaction.py:158-200 | both balances are set and both legs inserted as pending and then completed; the new state and the receipt are `TransferPosting` |
| Transactions.FilterCounts | app/services/transaction.py:217 | a filter keeps every element that passes exactly as often as it occurs, and nothing else |
| Transactions.SelectedCounts | app/services/transaction.py:212-217 | the query selects every matching record as often as it is stored, and nothing else |
| Transactions.InsertByTime | app/services/transaction.py:217 | inserting into a newest-first sequence keeps it newest first and adds exactly that record |
| Transactions.SortNewestFirst | app/services/transaction.py:217 | the intended order of the history (see Findings): newest first by `timestamp`, and a permutation of its input |
| Transactions.Page | app/services/transaction.py:217 | `skip`/`limit` give the contiguous slice starting at `skip`, exactly `min(|limit|, available)` entries long (zero: no limit), as `PageSize` counts |
| Transactions.History | app/services/transaction.py:204-225 | no account gives 404 and a negative skip an error; it succeeds exactly otherwise, with only the account's records of the given kind, newest first, exactly `PageSize` of them, the page starting at `skip` of the sorted selection; this is the corrected history (see Findings) |
| Transactions.PageRecordMatches | app/services/transaction.py:212-217 | every record on a page matches the query |
| Transactions.PageNewestFirst | app/services/transaction.py:217 | a page of a newest-first sequence is newest first |
| Transactions.HistoryRecordIsStored | app/services/transaction.py:212-225 | every returned record is a stored record |
| Transactions.HistoryIsComplete | app/services/transaction.py:204-225 | with no skip and no limit, every matching record is returned as often as it is stored |
| Transactions.GetUserTransactions | app/services/transaction.py:204-225 | the loop over the cursor returns `History` |
| Transactions.HistoryAsWritten | app/services/transaction.py:204-225 | the query as written: the same errors as `History`, and otherwise a page of exactly `PageSize` records cut from the selection in collection order, since the sort key is on no record |
| Transactions.HistoryAsWrittenNotNewestFirst | app/services/transaction.py:217 | two deposits stamped at times 1 and 2, stored in that order, are listed oldest first by the query as written and newest first by `History` |
| LegacyAccounts.GetAccountOutcome | services/account.py:30-38 | the user's first account in collection order; 404 exactly when the user owns none |
| LegacyAccounts.AccountById | services/account.py:41-44 | the document with that id, if there is one |
| LegacyAccounts.DepositFundOutcome | services/account.py:46-56 | with no ownership or amount check, the balance becomes old + amount and "successful" is returned; nothing else changes |
| LegacyAccounts.WithdrawFundOutcome | services/account.py:58-84 | a non-owner gets 403 before funds are looked at; 400 exactly when amount > balance (equality allowed); it succeeds exactly when the id exists, the caller owns it and amount <= balance, and then the balance becomes old - amount and "Withdrawal successful" is returned; errors change nothing |
| LegacyAccounts.WithdrawFundKeepsNoOverdraft | services/account.py:70-84 | a withdrawal never leaves a negative balance behind |
| LegacyAccounts.DepositFundAcceptsNegativeAmount | services/account.py:47-56 | a negative deposit is accepted and can overdraw an account |
| LegacyAccounts.DepositThenWithdrawRestores | services/account.py:47-84 | the owner withdrawing what was just deposited restores the collection, in exact arithmetic |
| LegacyAccounts.AccountService.constructor | services/account.py:87 | the service starts with an empty collection |
| LegacyAccounts.AccountService.CreateAccount | services/account.py:16-27 | appends and returns an account with balance 0 owned by the user |
| LegacyAccounts.AccountService.GetAccount | services/account.py:30-38 | searches the collection and returns `GetAccountOutcome` |
| LegacyAccounts.AccountService.GetAccountById | services/account.py:41-44 | returns `AccountById` |
| LegacyAccounts.AccountService.DepositFund | services/account.py:46-56 | the collection and the result are those of `DepositFundOutcome` |
| LegacyAccounts.AccountService.WithdrawFund | services/account.py:58-84 | the collection and the result are those of `WithdrawFundOutcome` |
| Bank.EmptyBooks | app/database.py:12-14 | empty collections satisfy `Books` |
| Bank.NetAppend | app/services/transaction.py:48 | appending a record adds its movement to its own account's net and to no other |
| Bank.NetOfUnnamed | app/services/account.py:53-64 | an account no record names has moved nothing |
| Bank.PostKeepsBooks | app/services/transaction.py:21-55 | posting a completed, consistent record that starts from its account's balance keeps `Books` |
| Bank.DepositKeepsBooks | app/services/transaction.py:13-57 | a deposit of a positive amount keeps `Books` |
| Bank.WithdrawalKeepsBooks | app/services/transaction.py:59-103 | a withdrawal of any amount keeps `Books` |
| Bank.TransferKeepsBooks | app/services/transaction.py:105-202 | a transfer of a positive amount keeps `Books`, leg by leg |
| Bank.CreateAccountKeepsBooks | app/services/account.py:53-64 | opening an account at balance 0 keeps `Books` |
| Bank.NetOfFirstAppend | app/services/transaction.py:48 | appending a record adds its movement to the sum over the accounts it belongs to |
| Bank.NetOfFirstIsFlow | app/services/transaction.py:13-202 | when all records belong to the first n accounts, their nets add up to the ledger's net flow |
| Bank.NetOfFirstEmpty | app/database.py:14 | an empty ledger has moved nothing |
| Bank.TotalIsNetOfFirst | app/services/transaction.py:13-202 | when every balance is its account's net, the money held is the sum of the nets |
| Bank.TotalIsFlow | app/services/transaction.py:13-202 | under `Books`, the money held equals the net movement recorded in the ledger |

## Left out

- MongoDB sessions and concurrency. Each operation is one atomic, sequential step. The balance checks run before the session opens, so the code does not serialize concurrent operations, and the model claims nothing about interleavings.
- The `Decimal128` conversions, and the `updated_at` stamps that `$currentDate` sets on accounts and users.
- Record times. The services write no `created_at` on a ledger record. The `Transaction` class stamps a `timestamp` when a record is built, and the model stamps each record with the operation's `now` as that `timestamp`. The newest-first order of `Transactions.History` rests on that stamp; the source's query does not guarantee it (see Findings).
- `Decimal` rounding. Balances are exact `real` numbers, while Python's `Decimal` arithmetic rounds a result beyond 28 significant digits (the default context). The ledger lemmas hold only for balances within that precision.
- `Schemas.NewUserUpdate`: an omitted `phone_number` defaults to the `constr(...)` type object, not to `None`, so `update_user` writes that object as the phone number. The model's `phoneNumber` is a string or `None`, and cannot express this case. The same default applies to `UserCreate.phone_number`.
- The mailer's own message in the detail of `EmailNotSent`, and the detail of the unwrapped mailer exception of `resend_verification_email` and `generate_password_reset` (`MailerFailed`), which the framework answers with a generic server error.
- The model classes in `app/models`: `User`, `Account` and `Transaction`. The services build these classes with field names the classes do not declare. For example, a transaction is built with `account_id` and `transaction_type`, while `Transaction` declares `user_id` and `type`. The model follows the fields the services pass, not the classes' validation. Only the kind and status enumerations and the `timestamp` default are taken from `app/models/transaction.py`.
- The unreachable `if not account.id` branch of `user_deposit`. `get_user_account` always returns an account with an id.
- bcrypt hashing is the parameter `hash`. JWT encoding and signing are left out: `create_access_token` is modelled up to the claims it encodes, and `get_current_user` takes the decoder's output. The fresh tokens from `secrets.token_urlsafe` are parameters.
- E-mail sending (`app/core/email.py`). The parameter `delivered` says whether the mailer succeeded.
- The clock. `now` is a parameter, in whole seconds.
- The routers, the app and the database client setup.
- `Accounts.GenerateAccountNumber`: `random.choices` becomes the finite list `draws` of ten-digit strings it would produce. When every draw is in use the model returns `NoUnusedAccountNumber`, where the source would keep drawing forever.
- `Transactions.SortNewestFirst`: records stamped at the same instant keep their collection order. MongoDB leaves that order open.
- `Transactions.HistoryAsWritten`: with every record tied on the missing sort key, MongoDB may return the records in any order. The model takes collection order, one of those orders.
- `Transactions.History`: converting stored documents back into `Transaction` objects, and a failure doing so, are not modelled.
- `Schemas.ValidateBvn`: only ASCII digits count as digits. Python's `str.isdigit` also accepts other Unicode digit characters.
- `Schemas.NewUserCreate`: the `EmailStr` check on the address is left out, so any string is accepted.
- `LegacyAccounts.DepositFundOutcome`: an unknown id gives `UnknownAccountId`. The source passes the missing document to `account_serializer`, which is not part of this model. Invalid `ObjectId` strings are left out.
- `LegacyAccounts.WithdrawFundOutcome`: the `float` conversions and their rounding are left out; the values are real numbers.
- `LegacyAccounts.DepositThenWithdrawRestores`: holds for real numbers only. With the service's `float` values, depositing 0.1 onto 0.2 and withdrawing it again leaves 0.20000000000000004.
- `LegacyAccounts.AccountService.CreateAccount`: the payload fields of `AccountCreatePayload` are not part of this model. An account keeps only its owner and balance.
- The engine itself does not check that amounts are positive; only the request schemas do. The model follows the code: `Transactions.DepositOutcome` accepts any amount. The `Bank` lemmas for deposit and transfer assume a positive amount, as a request that passed the schema has.

## Findings

| source | as written | input that shows it | evidently intended | confidence | as-written member | corrected member |
|---|---|---|---|---|---|---|
| app/services/transaction.py:217 | the history is sorted on `created_at`, a field no ledger record has, because records carry `timestamp` (app/models/transaction.py:13); every record ties, and the order is whatever the database returns | two deposits to one account, stamped at times 1 and 2 and stored in that order: nothing in the query puts the newer one first, and in collection order it lists the older one first | newest first by the record's time | high; not executed | Transactions.HistoryAsWritten, Transactions.HistoryAsWrittenNotNewestFirst | Transactions.History |
