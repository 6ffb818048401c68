/** The documents the services keep in the three MongoDB collections of
    app/database.py, the enumerations of app/models/transaction.py, the
    HTTP errors the services raise, and the store itself.

    A document's identifier is its position in its collection: collections
    only ever grow, so a position, once given, names the same document for
    ever. `find_one` returns the first matching document in collection
    order, which `FirstIndex` models. */
module Models {
  import opened Wrappers

  type UserId = nat
  type AccountId = nat

  /** `Literal["savings", "current"]` of app/schemas/account.py. */
  datatype AccountType = Savings | Current

  function AccountTypeName(t: AccountType): string
  {
    match t
    case Savings => "savings"
    case Current => "current"
  }

  /** The `type` literal of app/models/transaction.py. */
  datatype Kind = Deposit | Withdrawal | Transfer

  function KindName(k: Kind): string
  {
    match k
    case Deposit => "deposit"
    case Withdrawal => "withdrawal"
    case Transfer => "transfer"
  }

  /** The `status` literal of app/models/transaction.py; `Pending` is its default. */
  datatype Status = Pending | Completed | Failed

  /** A document of `users_collection`, with the fields the services write. */
  datatype User = User(
    email: string,
    passwordHash: string,
    fullName: string,
    phoneNumber: string,
    isVerified: bool,
    verificationToken: Option<string>,
    resetToken: Option<string>,
    resetTokenExpires: Option<int>,
    bvn: Option<string>)

  /** A document of `accounts_collection`. */
  datatype Account = Account(
    userId: UserId,
    accountType: AccountType,
    accountNumber: string,
    balance: real,
    isActive: bool,
    currency: string)

  /** A document of `transactions_collection`: the fields the transaction
      service passes, plus the construction time `timestamp` that the
      `Transaction` class stamps by default. No record has a `created_at`
      field. */
  datatype TxRecord = TxRecord(
    accountId: AccountId,
    transactionType: Kind,
    amount: real,
    description: Option<string>,
    balanceBefore: real,
    balanceAfter: real,
    recipientAccountId: Option<AccountId>,
    status: Status,
    timestamp: int)

  /** The HTTP errors the services raise (and the failures that come from
      collaborators: the cursor's refusal of a negative skip, a missing
      document handed to the legacy serializer, and the mailer's own
      exception, which reaches the client as a server error). */
  datatype Error =
    | AccountNotFound
    | InsufficientFunds
    | RecipientNotFound
    | SameAccountTransfer
    | NegativeSkip
    | BvnMismatch
    | DuplicateAccount(accountType: AccountType)
    | NoUnusedAccountNumber
    | EmailAlreadyRegistered
    | EmailNotSent
    | MailerFailed
    | UserNotFound
    | EmailAlreadyVerified
    | UserNotVerified
    | CredentialsNotValidated
    | TokenUserNotFound
    | NotAccountOwner
    | WithdrawalExceedsBalance
    | UnknownAccountId

  function StatusCode(e: Error): nat
  {
    match e
    case AccountNotFound => 404
    case InsufficientFunds => 400
    case RecipientNotFound => 404
    case SameAccountTransfer => 400
    case NegativeSkip => 500
    case BvnMismatch => 400
    case DuplicateAccount(_) => 400
    case NoUnusedAccountNumber => 500
    case EmailAlreadyRegistered => 400
    case EmailNotSent => 500
    case MailerFailed => 500
    case UserNotFound => 404
    case EmailAlreadyVerified => 400
    case UserNotVerified => 400
    case CredentialsNotValidated => 401
    case TokenUserNotFound => 401
    case NotAccountOwner => 403
    case WithdrawalExceedsBalance => 400
    case UnknownAccountId => 500
  }

  function Detail(e: Error): string
  {
    match e
    case AccountNotFound => "Account not found"
    case InsufficientFunds => "Insufficient funds"
    case RecipientNotFound => "Recipient account not found"
    case SameAccountTransfer => "Cannot transfer to same account"
    case NegativeSkip => "skip must be >= 0"
    case BvnMismatch => "The BVN provided does not match your registered BVN."
    case DuplicateAccount(t) => "You already have a " + AccountTypeName(t) + " account."
    case NoUnusedAccountNumber => "No unused account number was drawn"
    case EmailAlreadyRegistered => "Email already registered"
    // followed by the mailer's message, which is not modelled
    case EmailNotSent => "Failed to send verification email: "
    case MailerFailed => "Internal Server Error"
    case UserNotFound => "User not found"
    case EmailAlreadyVerified => "Email already verified"
    case UserNotVerified => "User account is not verified"
    case CredentialsNotValidated => "Could not validate credentials"
    case TokenUserNotFound => "User not found"
    case NotAccountOwner => "You can only withdraw from your own account"
    case WithdrawalExceedsBalance => "Insufficient funds for withdrawal"
    case UnknownAccountId => "Account document not found"
  }

  /** `find_one`: the position of the first element satisfying `p`. */
  function FirstIndex<T>(s: seq<T>, p: T -> bool): (r: Option<nat>)
    ensures r.Some? ==> r.value < |s| && p(s[r.value])
    ensures r.Some? ==> forall j :: 0 <= j < r.value ==> !p(s[j])
    ensures r.None? <==> forall j :: 0 <= j < |s| ==> !p(s[j])
  {
    if |s| == 0 then None
    else if p(s[0]) then Some(0)
    else match FirstIndex(s[1..], p)
      case None => None
      case Some(k) => Some(k + 1)
  }

  /** The three collections of app/database.py, injected into every service. */
  class Database {
    var users: seq<User>
    var accounts: seq<Account>
    var transactions: seq<TxRecord>

    constructor ()
      ensures users == [] && accounts == [] && transactions == []
    {
      users, accounts, transactions := [], [], [];
    }
  }
}
