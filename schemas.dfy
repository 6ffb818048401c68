/** The request bodies of the three files of app/schemas and the constraints pydantic
    checks on them. Each `New…` function is the model's validation: it
    yields the request when every field constraint holds and `None` (a
    validation error, HTTP 422) otherwise. Defaults of the Python fields
    are Dafny default parameter values. */
module Schemas {
  import opened Wrappers
  import opened Models

  predicate IsDigit(c: char)
  {
    '0' <= c <= '9'
  }

  /** Every character is a decimal digit. */
  function AllDigits(s: string): (b: bool)
    ensures b <==> forall i :: 0 <= i < |s| ==> IsDigit(s[i])
  {
    if |s| == 0 then true else IsDigit(s[0]) && AllDigits(s[1..])
  }

  /** Python's `str.isdigit` on the decimal digits: false on the empty string. */
  predicate IsDigits(s: string)
  {
    |s| > 0 && AllDigits(s)
  }

  /** Ten decimal digits: what `generate_account_number` draws. */
  predicate IsAccountNumber(s: string)
  {
    |s| == 10 && AllDigits(s)
  }

  // ---- app/schemas/account.py ----

  const DefaultAccountType: AccountType := Savings

  /** `CreateAccount.validate_bvn`: exactly eleven characters, all digits;
      an accepted value comes back unchanged. */
  function ValidateBvn(v: string): (r: Option<string>)
    ensures r.Some? <==> |v| == 11 && forall i :: 0 <= i < |v| ==> IsDigit(v[i])
    ensures r.Some? ==> r.value == v
  {
    if |v| != 11 || !IsDigits(v) then None else Some(v)
  }

  /** The `Literal["savings", "current"]` check on `account_type`. */
  function ParseAccountType(s: string): (r: Option<AccountType>)
    ensures r.Some? ==> AccountTypeName(r.value) == s
    ensures r.None? ==> s != "savings" && s != "current"
  {
    if s == "savings" then Some(Savings)
    else if s == "current" then Some(Current)
    else None
  }

  lemma ParseAccountTypeName(t: AccountType)
    ensures ParseAccountType(AccountTypeName(t)) == Some(t)
  {
  }

  datatype CreateAccount = CreateAccount(bvn: string, accountType: AccountType)

  function NewCreateAccount(bvn: string, accountType: string := AccountTypeName(DefaultAccountType)): (r: Option<CreateAccount>)
    ensures r.Some? <==> ValidateBvn(bvn).Some? && ParseAccountType(accountType).Some?
    ensures r.Some? ==> r.value.bvn == bvn && AccountTypeName(r.value.accountType) == accountType
  {
    match (ValidateBvn(bvn), ParseAccountType(accountType))
    case (Some(b), Some(t)) => Some(CreateAccount(b, t))
    case _ => None
  }

  // ---- app/schemas/transaction.py ----

  /** A request that names no type asks for a savings account. */
  lemma NewCreateAccountDefaultsToSavings(bvn: string)
    requires ValidateBvn(bvn).Some?
    ensures NewCreateAccount(bvn) == Some(CreateAccount(bvn, Savings))
  {
  }

  datatype TransactionRequest = TransactionRequest(amount: real, description: Option<string>)

  function NewTransactionRequest(amount: real, description: Option<string> := None): (r: Option<TransactionRequest>)
    ensures r.Some? <==> amount > 0.0
    ensures r.Some? ==> r.value.amount == amount && r.value.description == description
  {
    if amount > 0.0 then Some(TransactionRequest(amount, description)) else None
  }

  datatype TransferRequest = TransferRequest(toAccountNumber: string, amount: real, description: Option<string>)

  function NewTransferRequest(toAccountNumber: string, amount: real, description: Option<string> := None): (r: Option<TransferRequest>)
    ensures r.Some? <==> |toAccountNumber| == 10 && amount > 0.0
    ensures r.Some? ==> r.value == TransferRequest(toAccountNumber, amount, description)
  {
    if |toAccountNumber| == 10 && amount > 0.0 then
      Some(TransferRequest(toAccountNumber, amount, description))
    else
      None
  }

  /** Every number `generate_account_number` can produce passes the length
      constraint of a transfer request. */
  lemma AccountNumbersAreAddressable(n: string, amount: real)
    requires IsAccountNumber(n) && amount > 0.0
    ensures NewTransferRequest(n, amount).Some?
  {
  }

  // ---- app/schemas/user.py ----

  /** `phone_number` is declared with a `constr(...)` type as its default
      value, which constrains nothing: any string is accepted. */
  datatype UserCreate = UserCreate(email: string, password: string, fullName: string, phoneNumber: string)

  function NewUserCreate(email: string, password: string, fullName: string, phoneNumber: string): (r: Option<UserCreate>)
    ensures r.Some? <==> |password| >= 8 && |fullName| >= 2
    ensures r.Some? ==> r.value == UserCreate(email, password, fullName, phoneNumber)
  {
    if |password| >= 8 && |fullName| >= 2 then Some(UserCreate(email, password, fullName, phoneNumber)) else None
  }

  /** `full_name` has no default, may be `None`, and when it is a string
      it has at least two characters. */
  datatype UserUpdate = UserUpdate(fullName: Option<string>, phoneNumber: Option<string>)

  function NewUserUpdate(fullName: Option<string>, phoneNumber: Option<string>): (r: Option<UserUpdate>)
    ensures r.Some? <==> (fullName.None? || |fullName.value| >= 2)
    ensures r.Some? ==> r.value == UserUpdate(fullName, phoneNumber)
  {
    match fullName
    case None => Some(UserUpdate(None, phoneNumber))
    case Some(n) => if |n| < 2 then None else Some(UserUpdate(fullName, phoneNumber))
  }

  /** `NewPassword` puts no constraint on either field. */
  datatype NewPassword = NewPassword(token: string, newPassword: string)

  function NewNewPassword(token: string, newPassword: string): (r: Option<NewPassword>)
    ensures r == Some(NewPassword(token, newPassword))
  {
    Some(NewPassword(token, newPassword))
  }

  /** A password too short to register with is still accepted by a reset. */
  lemma ResetAcceptsShortPassword(token: string, email: string, fullName: string, phoneNumber: string)
    ensures NewUserCreate(email, "short", fullName, phoneNumber).None?
    ensures NewNewPassword(token, "short").Some?
  {
  }

  datatype Token = Token(accessToken: string, tokenType: string)

  function NewToken(accessToken: string, tokenType: string := "bearer"): (r: Token)
    ensures r.accessToken == accessToken && r.tokenType == tokenType
  {
    Token(accessToken, tokenType)
  }

  /** A token built without a type is a bearer token. */
  lemma NewTokenIsBearer(accessToken: string)
    ensures NewToken(accessToken).tokenType == "bearer"
    ensures NewToken(accessToken).accessToken == accessToken
  {
  }
}
