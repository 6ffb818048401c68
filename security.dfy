/** app/core/security.py: the claims an access token carries, and e-mail
    verification against the users collection. Hashing and the JWT
    encoding itself are external: the model stops at the claims handed to
    the encoder. Times are whole seconds. */
module Security {
  import opened Wrappers
  import opened Models

  const AccessTokenExpireMinutes: int := 30

  /** A value in a JWT payload. */
  datatype Claim = Text(text: string) | Instant(seconds: int) | Null

  type Claims = map<string, Claim>

  /** The `exp` instant of `create_access_token`: a given, non-zero delta
      is added to now; an absent or zero delta (a falsy `timedelta`) gives
      the default thirty minutes. */
  function Expiry(now: int, expiresDelta: Option<int>): (t: int)
    ensures expiresDelta.Some? && expiresDelta.value != 0 ==> t - now == expiresDelta.value
    ensures expiresDelta.None? || expiresDelta.value == 0 ==> t - now == AccessTokenExpireMinutes * 60
  {
    match expiresDelta
    case Some(d) => if d != 0 then now + d else now + AccessTokenExpireMinutes * 60
    case None => now + AccessTokenExpireMinutes * 60
  }

  /** The payload `create_access_token` encodes: a copy of `data` with
      `exp` set; every other claim is carried over unchanged. */
  function AccessTokenClaims(data: Claims, now: int, expiresDelta: Option<int> := None): (c: Claims)
    ensures c.Keys == data.Keys + {"exp"}
    ensures c["exp"] == Instant(Expiry(now, expiresDelta))
    ensures forall k :: k in data && k != "exp" ==> c[k] == data[k]
  {
    data["exp" := Instant(Expiry(now, expiresDelta))]
  }

  /** A token issued without a delta, or with a positive one, expires
      strictly after it was issued. */
  lemma AccessTokenOutlivesIssue(data: Claims, now: int, expiresDelta: Option<int>)
    requires expiresDelta.None? || expiresDelta.value >= 0
    ensures AccessTokenClaims(data, now, expiresDelta)["exp"].seconds > now
  {
  }

  // ---- verify_user ----

  predicate HoldsVerificationToken(token: string, u: User)
  {
    u.verificationToken == Some(token)
  }

  datatype Verification = Verification(users: seq<User>, verified: bool)

  /** `verify_user`: the first user holding `token` becomes verified and
      loses the token; with no holder nothing changes. */
  function VerifyUserOutcome(users: seq<User>, token: string): (v: Verification)
    ensures v.verified <==> exists i :: 0 <= i < |users| && users[i].verificationToken == Some(token)
    ensures !v.verified ==> v.users == users
    ensures |v.users| == |users|
    ensures v.verified ==>
      var i := FirstIndex(users, u => HoldsVerificationToken(token, u)).value;
      && v.users[i].isVerified
      && v.users[i].verificationToken.None?
      && v.users[i] == users[i].(isVerified := true, verificationToken := None)
      && forall j :: 0 <= j < |users| && j != i ==> v.users[j] == users[j]
  {
    match FirstIndex(users, u => HoldsVerificationToken(token, u))
    case None => Verification(users, false)
    case Some(i) => Verification(users[i := users[i].(isVerified := true, verificationToken := None)], true)
  }

  /** A verification token is single-use: once it has verified its (only)
      holder, presenting it again fails. */
  lemma {:induction false} VerificationTokenSingleUse(users: seq<User>, token: string)
    requires forall i, j :: 0 <= i < |users| && 0 <= j < |users| && users[i].verificationToken == Some(token) && users[j].verificationToken == Some(token) ==> i == j
    ensures !VerifyUserOutcome(VerifyUserOutcome(users, token).users, token).verified
  {
    var v := VerifyUserOutcome(users, token);
    if v.verified {
      var i := FirstIndex(users, u => HoldsVerificationToken(token, u)).value;
      forall j | 0 <= j < |v.users|
        ensures v.users[j].verificationToken != Some(token)
      {
        if j != i {
          assert v.users[j] == users[j];
        }
      }
    }
  }

  /** `verify_user` on the injected store. */
  method VerifyUser(db: Database, token: string) returns (verified: bool)
    modifies db
    ensures db.accounts == old(db.accounts) && db.transactions == old(db.transactions)
    ensures Verification(db.users, verified) == VerifyUserOutcome(old(db.users), token)
  {
    var found := FirstIndex(db.users, u => HoldsVerificationToken(token, u));
    if found.None? {
      return false;
    }
    var i := found.value;
    db.users := db.users[i := db.users[i].(isVerified := true, verificationToken := None)];
    verified := true;
  }
}
