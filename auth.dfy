/** app/services/auth.py: registration, e-mail verification resends,
    password reset and profile update on the users collection, and the
    authentication of a request from its decoded token.

    Collaborators the model does not contain are parameters: `hash` is the
    bcrypt digest function, fresh tokens from `secrets.token_urlsafe` are
    passed in, `delivered` says whether the mailer succeeded, `now` is the
    clock in seconds, and `decoded` is what the JWT decoder produced
    (`None` when decoding failed). */
module Auth {
  import opened Wrappers
  import opened Models
  import opened Security

  /** `timedelta(hours=1)` in seconds. */
  const ResetTokenLifetime: int := 3600

  predicate HasEmail(email: string, u: User)
  {
    u.email == email
  }

  /** `get_user_by_email`: the first user registered under `email`. */
  function GetUserByEmail(users: seq<User>, email: string): (r: Option<UserId>)
    ensures r.Some? ==> r.value < |users| && users[r.value].email == email
    ensures r.None? <==> forall j :: 0 <= j < |users| ==> users[j].email != email
  {
    FirstIndex(users, u => HasEmail(email, u))
  }

  /** No two users share an e-mail address. */
  ghost predicate DistinctEmails(users: seq<User>)
  {
    forall i, j :: 0 <= i < j < |users| ==> users[i].email != users[j].email
  }

  /** Same users, in the same places, under the same e-mail addresses. */
  ghost predicate SameEmails(before: seq<User>, after: seq<User>)
  {
    |after| == |before| && forall j :: 0 <= j < |before| ==> after[j].email == before[j].email
  }

  lemma SameEmailsKeepDistinct(before: seq<User>, after: seq<User>)
    requires DistinctEmails(before) && SameEmails(before, after)
    ensures DistinctEmails(after)
  {
  }

  /** The view of a user that `create_user` returns: it has no field for
      the password hash or the verification token. */
  datatype PublicUser = PublicUser(email: string, fullName: string, phoneNumber: string, isVerified: bool)

  function Public(u: User): (p: PublicUser)
    ensures p.email == u.email && p.fullName == u.fullName && p.phoneNumber == u.phoneNumber
    ensures p.isVerified == u.isVerified
  {
    PublicUser(u.email, u.fullName, u.phoneNumber, u.isVerified)
  }

  /** The users collection after an operation, and what the operation returned. */
  datatype UsersChange<T> = UsersChange(users: seq<User>, result: Result<T, Error>)

  // ---- create_user ----

  /** The document `create_user` inserts: unverified, holding its
      verification token, with no reset token and no BVN. */
  function Registered(email: string, passwordHash: string, fullName: string, phoneNumber: string, token: string): (u: User)
    ensures u.email == email && u.passwordHash == passwordHash && !u.isVerified
    ensures u.verificationToken == Some(token)
    ensures u.resetToken.None? && u.resetTokenExpires.None? && u.bvn.None?
  {
    User(email, passwordHash, fullName, phoneNumber, false, Some(token), None, None, None)
  }

  function CreateUserOutcome(users: seq<User>, email: string, password: string, fullName: string, phoneNumber: string,
                             token: string, hash: string -> string, delivered: bool): (c: UsersChange<PublicUser>)
    ensures c.result == Err(EmailAlreadyRegistered) <==> exists i :: 0 <= i < |users| && users[i].email == email
    ensures c.result == Err(EmailAlreadyRegistered) ==> c.users == users
    ensures c.result != Err(EmailAlreadyRegistered) ==>
      c.users == users + [Registered(email, hash(password), fullName, phoneNumber, token)]
    ensures c.result == Err(EmailNotSent) <==> GetUserByEmail(users, email).None? && !delivered
    ensures c.result.Ok? <==> GetUserByEmail(users, email).None? && delivered
    ensures c.result.Ok? ==> c.result.value == Public(c.users[|users|])
  {
    if GetUserByEmail(users, email).Some? then
      UsersChange(users, Err(EmailAlreadyRegistered))
    else
      var u := Registered(email, hash(password), fullName, phoneNumber, token);
      UsersChange(users + [u], if delivered then Ok(Public(u)) else Err(EmailNotSent))
  }

  /** Registration keeps e-mail addresses unique. */
  lemma CreateUserKeepsEmailsDistinct(users: seq<User>, email: string, password: string, fullName: string, phoneNumber: string,
                                      token: string, hash: string -> string, delivered: bool)
    requires DistinctEmails(users)
    ensures DistinctEmails(CreateUserOutcome(users, email, password, fullName, phoneNumber, token, hash, delivered).users)
  {
    var c := CreateUserOutcome(users, email, password, fullName, phoneNumber, token, hash, delivered);
    if c.users != users {
      assert forall j :: 0 <= j < |users| ==> c.users[j] == users[j];
    }
  }

  /** A freshly registered user can be verified with the token mailed to
      them, provided no one else holds that token. */
  lemma {:induction false} RegisteredUserCanVerify(users: seq<User>, email: string, password: string, fullName: string, phoneNumber: string,
                                                  token: string, hash: string -> string, delivered: bool)
    requires GetUserByEmail(users, email).None?
    requires forall j :: 0 <= j < |users| ==> users[j].verificationToken != Some(token)
    ensures
      var c := CreateUserOutcome(users, email, password, fullName, phoneNumber, token, hash, delivered);
      var v := VerifyUserOutcome(c.users, token);
      v.verified && v.users[|users|].isVerified && v.users[|users|].email == email
  {
    var c := CreateUserOutcome(users, email, password, fullName, phoneNumber, token, hash, delivered);
    assert c.users[|users|].verificationToken == Some(token);
    assert forall j :: 0 <= j < |users| ==> c.users[j] == users[j];
  }

  method CreateUser(db: Database, email: string, password: string, fullName: string, phoneNumber: string,
                    token: string, hash: string -> string, delivered: bool) returns (r: Result<PublicUser, Error>)
    modifies db
    ensures db.accounts == old(db.accounts) && db.transactions == old(db.transactions)
    ensures UsersChange(db.users, r) == CreateUserOutcome(old(db.users), email, password, fullName, phoneNumber, token, hash, delivered)
  {
    if GetUserByEmail(db.users, email).Some? {
      return Err(EmailAlreadyRegistered);
    }
    var u := Registered(email, hash(password), fullName, phoneNumber, token);
    db.users := db.users + [u];
    if !delivered {
      return Err(EmailNotSent);
    }
    r := Ok(Public(u));
  }

  // ---- resend_verification_email ----

  /** The token `resend_verification_email` mails: the one already stored. */
  function ResendVerificationOutcome(users: seq<User>, email: string, delivered: bool): (r: Result<Option<string>, Error>)
    ensures r == Err(UserNotFound) <==> GetUserByEmail(users, email).None?
    ensures r == Err(EmailAlreadyVerified) <==>
      GetUserByEmail(users, email).Some? && users[GetUserByEmail(users, email).value].isVerified
    ensures r == Err(MailerFailed) <==>
      GetUserByEmail(users, email).Some? && !users[GetUserByEmail(users, email).value].isVerified && !delivered
    ensures r.Ok? <==>
      GetUserByEmail(users, email).Some? && !users[GetUserByEmail(users, email).value].isVerified && delivered
    ensures r.Ok? ==> r.value == users[GetUserByEmail(users, email).value].verificationToken
  {
    match GetUserByEmail(users, email)
    case None => Err(UserNotFound)
    case Some(i) =>
      if users[i].isVerified then Err(EmailAlreadyVerified)
      else if !delivered then Err(MailerFailed)
      else Ok(users[i].verificationToken)
  }

  // ---- generate_password_reset ----

  function GeneratePasswordResetOutcome(users: seq<User>, email: string, resetToken: string, now: int, delivered: bool): (c: UsersChange<bool>)
    ensures c.result == Err(UserNotFound) <==> GetUserByEmail(users, email).None?
    ensures c.result == Err(UserNotVerified) <==>
      GetUserByEmail(users, email).Some? && !users[GetUserByEmail(users, email).value].isVerified
    ensures c.result == Err(UserNotFound) || c.result == Err(UserNotVerified) ==> c.users == users
    ensures c.result.Ok? <==>
      GetUserByEmail(users, email).Some? && users[GetUserByEmail(users, email).value].isVerified && delivered
    ensures c.result.Ok? ==> c.result.value
    ensures c.result.Ok? || c.result == Err(MailerFailed) ==>
      var i := GetUserByEmail(users, email).value;
      && users[i].isVerified
      && c.users == users[i := users[i].(resetToken := Some(resetToken), resetTokenExpires := Some(now + ResetTokenLifetime))]
    ensures c.result == Err(MailerFailed) <==>
      GetUserByEmail(users, email).Some? && users[GetUserByEmail(users, email).value].isVerified && !delivered
    ensures SameEmails(users, c.users)
  {
    match GetUserByEmail(users, email)
    case None => UsersChange(users, Err(UserNotFound))
    case Some(i) =>
      if !users[i].isVerified then UsersChange(users, Err(UserNotVerified))
      else
        var stamped := users[i := users[i].(resetToken := Some(resetToken), resetTokenExpires := Some(now + ResetTokenLifetime))];
        UsersChange(stamped, if delivered then Ok(true) else Err(MailerFailed))
  }

  method GeneratePasswordReset(db: Database, email: string, resetToken: string, now: int, delivered: bool) returns (r: Result<bool, Error>)
    modifies db
    ensures db.accounts == old(db.accounts) && db.transactions == old(db.transactions)
    ensures UsersChange(db.users, r) == GeneratePasswordResetOutcome(old(db.users), email, resetToken, now, delivered)
  {
    var found := GetUserByEmail(db.users, email);
    if found.None? {
      return Err(UserNotFound);
    }
    var i := found.value;
    if !db.users[i].isVerified {
      return Err(UserNotVerified);
    }
    var expires := now + ResetTokenLifetime;
    db.users := db.users[i := db.users[i].(resetToken := Some(resetToken), resetTokenExpires := Some(expires))];
    if !delivered {
      return Err(MailerFailed);
    }
    r := Ok(true);
  }

  // ---- reset_user_password ----

  /** The query of `reset_user_password`: the user holds `token` and its
      expiry lies strictly after `now`. */
  predicate ResetTokenLive(token: string, now: int, u: User)
  {
    u.resetToken == Some(token) && u.resetTokenExpires.Some? && u.resetTokenExpires.value > now
  }

  datatype PasswordReset = PasswordReset(users: seq<User>, reset: bool)

  function ResetUserPasswordOutcome(users: seq<User>, token: string, newPassword: string, now: int, hash: string -> string): (p: PasswordReset)
    ensures p.reset <==> exists i :: 0 <= i < |users| && ResetTokenLive(token, now, users[i])
    ensures !p.reset ==> p.users == users
    ensures p.reset ==>
      var i := FirstIndex(users, u => ResetTokenLive(token, now, u)).value;
      p.users == users[i := users[i].(passwordHash := hash(newPassword), resetToken := None, resetTokenExpires := None)]
    ensures SameEmails(users, p.users)
  {
    match FirstIndex(users, u => ResetTokenLive(token, now, u))
    case None => PasswordReset(users, false)
    case Some(i) =>
      PasswordReset(users[i := users[i].(passwordHash := hash(newPassword), resetToken := None, resetTokenExpires := None)], true)
  }

  /** A reset token works before the hour is up and not from then on: it
      is mailed by `generate_password_reset` at `issuedAt` and presented
      at `now`, and nobody else holds it. */
  lemma {:induction false} ResetTokenExpiresAfterOneHour(users: seq<User>, email: string, resetToken: string, issuedAt: int, delivered: bool,
                                                        newPassword: string, now: int, hash: string -> string)
    requires GetUserByEmail(users, email).Some? && users[GetUserByEmail(users, email).value].isVerified
    requires forall j :: 0 <= j < |users| ==> users[j].resetToken != Some(resetToken)
    ensures
      var g := GeneratePasswordResetOutcome(users, email, resetToken, issuedAt, delivered);
      var p := ResetUserPasswordOutcome(g.users, resetToken, newPassword, now, hash);
      var i := GetUserByEmail(users, email).value;
      && (p.reset <==> now < issuedAt + ResetTokenLifetime)
      && (p.reset ==> p.users[i].passwordHash == hash(newPassword))
  {
    var g := GeneratePasswordResetOutcome(users, email, resetToken, issuedAt, delivered);
    var i := GetUserByEmail(users, email).value;
    assert forall j :: 0 <= j < |users| && j != i ==> g.users[j] == users[j];
    if now < issuedAt + ResetTokenLifetime {
      assert ResetTokenLive(resetToken, now, g.users[i]);
    } else {
      forall j | 0 <= j < |g.users|
        ensures !ResetTokenLive(resetToken, now, g.users[j])
      {
        if j != i {
          assert g.users[j] == users[j];
        }
      }
    }
  }

  /** A reset token is single-use: after a successful reset nobody holds
      it, so presenting it again fails and changes nothing. */
  lemma {:induction false} ResetTokenSingleUse(users: seq<User>, token: string, newPassword: string, now: int, later: int,
                                              otherPassword: string, hash: string -> string)
    requires forall i, j :: 0 <= i < |users| && 0 <= j < |users| && users[i].resetToken == Some(token) && users[j].resetToken == Some(token) ==> i == j
    requires ResetUserPasswordOutcome(users, token, newPassword, now, hash).reset
    ensures
      var first := ResetUserPasswordOutcome(users, token, newPassword, now, hash);
      var second := ResetUserPasswordOutcome(first.users, token, otherPassword, later, hash);
      !second.reset && second.users == first.users
  {
    var first := ResetUserPasswordOutcome(users, token, newPassword, now, hash);
    var i := FirstIndex(users, u => ResetTokenLive(token, now, u)).value;
    forall j | 0 <= j < |first.users|
      ensures !ResetTokenLive(token, later, first.users[j])
    {
      if j != i {
        assert first.users[j] == users[j];
      }
    }
  }

  method ResetUserPassword(db: Database, token: string, newPassword: string, now: int, hash: string -> string) returns (reset: bool)
    modifies db
    ensures db.accounts == old(db.accounts) && db.transactions == old(db.transactions)
    ensures PasswordReset(db.users, reset) == ResetUserPasswordOutcome(old(db.users), token, newPassword, now, hash)
  {
    var found := FirstIndex(db.users, u => ResetTokenLive(token, now, u));
    if found.None? {
      return false;
    }
    var i := found.value;
    db.users := db.users[i := db.users[i].(passwordHash := hash(newPassword), resetToken := None, resetTokenExpires := None)];
    reset := true;
  }

  // ---- update_user ----

  function UpdateUserOutcome(users: seq<User>, email: string, fullName: Option<string>, phoneNumber: Option<string>): (c: UsersChange<string>)
    ensures c.result.Err? <==> GetUserByEmail(users, email).None?
    ensures c.result.Err? ==> c.result.error == UserNotFound && c.users == users
    ensures c.result.Ok? ==> c.result.value == "User updated successfully"
    ensures fullName.None? && phoneNumber.None? ==> c.users == users
    ensures c.result.Ok? ==>
      var i := GetUserByEmail(users, email).value;
      && |c.users| == |users|
      && (forall j :: 0 <= j < |users| && j != i ==> c.users[j] == users[j])
      && c.users[i].fullName == (if fullName.Some? then fullName.value else users[i].fullName)
      && c.users[i].phoneNumber == (if phoneNumber.Some? then phoneNumber.value else users[i].phoneNumber)
      && c.users[i] == users[i].(fullName := c.users[i].fullName, phoneNumber := c.users[i].phoneNumber)
  {
    match GetUserByEmail(users, email)
    case None => UsersChange(users, Err(UserNotFound))
    case Some(i) =>
      var u := users[i];
      var u' := u.(fullName := if fullName.Some? then fullName.value else u.fullName,
                   phoneNumber := if phoneNumber.Some? then phoneNumber.value else u.phoneNumber);
      UsersChange(if fullName.None? && phoneNumber.None? then users else users[i := u'], Ok("User updated successfully"))
  }

  method UpdateUser(db: Database, email: string, fullName: Option<string>, phoneNumber: Option<string>) returns (r: Result<string, Error>)
    modifies db
    ensures db.accounts == old(db.accounts) && db.transactions == old(db.transactions)
    ensures UsersChange(db.users, r) == UpdateUserOutcome(old(db.users), email, fullName, phoneNumber)
  {
    var found := GetUserByEmail(db.users, email);
    if found.None? {
      return Err(UserNotFound);
    }
    var i := found.value;
    // the `$set` document, one field at a time
    var updated := db.users[i];
    var anyField := false;
    if fullName.Some? {
      updated := updated.(fullName := fullName.value);
      anyField := true;
    }
    if phoneNumber.Some? {
      updated := updated.(phoneNumber := phoneNumber.value);
      anyField := true;
    }
    if anyField {
      db.users := db.users[i := updated];
    }
    r := Ok("User updated successfully");
  }

  // ---- get_current_user ----

  /** The user a request's token names, from the payload the decoder
      produced: a failed decode, a missing or null `sub`, or an unknown
      address are all rejected with 401. */
  function GetCurrentUser(users: seq<User>, decoded: Option<Claims>): (r: Result<UserId, Error>)
    ensures r.Ok? <==> decoded.Some? && "sub" in decoded.value && decoded.value["sub"].Text?
                       && GetUserByEmail(users, decoded.value["sub"].text).Some?
    ensures r.Ok? ==> r.value < |users| && users[r.value].email == decoded.value["sub"].text
    ensures r.Ok? ==> Some(r.value) == GetUserByEmail(users, decoded.value["sub"].text)
    ensures r.Err? ==> StatusCode(r.error) == 401
    ensures r == Err(CredentialsNotValidated) <==> decoded.None? || "sub" !in decoded.value || decoded.value["sub"] == Null
  {
    match decoded
    case None => Err(CredentialsNotValidated)
    case Some(payload) =>
      if "sub" !in payload || payload["sub"] == Null then Err(CredentialsNotValidated)
      else match payload["sub"]
        case Text(email) =>
          (match GetUserByEmail(users, email)
           case None => Err(TokenUserNotFound)
           case Some(i) => Ok(i))
        case _ => Err(TokenUserNotFound)
  }

  /** When the decoder hands back the claims login issued (`{"sub": email}`
      plus `exp`), the request is authenticated as the first user registered
      under that address. The decoder refuses an expired token, so this
      holds only while the token is unexpired; a refused token is the
      `None` case of `GetCurrentUser`, rejected with 401. */
  lemma LoginTokenAuthenticates(users: seq<User>, email: string, now: int, expiresDelta: Option<int>)
    requires exists i :: 0 <= i < |users| && users[i].email == email
    ensures
      var r := GetCurrentUser(users, Some(AccessTokenClaims(map["sub" := Text(email)], now, expiresDelta)));
      r.Ok? && Some(r.value) == GetUserByEmail(users, email) && users[r.value].email == email
  {
  }
}
