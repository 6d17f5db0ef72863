/** Accounts (`src/routes/auth.js`): the user registry keyed by email, the
    login decision, and single-use, expiring password-reset tokens. Hashing,
    token bytes and the clock are inputs: `Hash` values come from the
    password hashing library, `digest` stands for SHA-256 in hex, and `now`
    is the current time in milliseconds. */
module Accounts {
  import opened Base
  import opened Text
  import opened Guards

  type Hash = string
  type Millis = int

  /** A row of `users`; its id is its position in the table. */
  datatype User = User(
    name: string,
    email: string,
    passwordHash: Hash,
    role: string,
    lastLoginAt: Option<Millis>,
    updatedAt: Option<Millis>)

  /** A row of `password_resets`. */
  datatype ResetRow = ResetRow(userId: nat, tokenHash: string, expiresAt: Millis, used: bool)

  /** A reset link is valid for one hour. */
  const ResetLifetime: Millis := 60 * 60 * 1000

  const MinPasswordLength: nat := 8

  /** The login form only checks that the password has this many characters. */
  const LoginMinPasswordLength: nat := 6

  predicate EmailsUnique(users: seq<User>)
  {
    forall i, j :: 0 <= i < j < |users| ==> users[i].email != users[j].email
  }

  class AccountDb {
    var users: seq<User>
    var resets: seq<ResetRow>

    /** Emails are unique and every reset row belongs to a user. */
    ghost predicate Valid()
      reads this
    {
      && EmailsUnique(users)
      && forall k :: 0 <= k < |resets| ==> resets[k].userId < |users|
    }

    constructor ()
      ensures Valid() && users == [] && resets == []
    {
      users, resets := [], [];
    }
  }

  // ---------------------------------------------------------------------
  // Validation

  predicate IsLower(c: char) { 'a' <= c <= 'z' }
  predicate IsUpper(c: char) { 'A' <= c <= 'Z' }
  predicate IsDigit(c: char) { '0' <= c <= '9' }

  /** The symbol class of the password-strength rule. */
  predicate IsSymbol(c: char)
  {
    c in "-#!$@£%^&*()_+|~=`{}[]:\";'<>?,./\\ "
  }

  /** `isStrongPassword` with a minimum length of 8 and at least one
      lower-case letter, one upper-case letter, one digit and one symbol. */
  predicate StrongPassword(p: string): (ok: bool)
    ensures ok ==> |p| >= LoginMinPasswordLength
    ensures (forall i :: 0 <= i < |p| ==> IsLower(p[i]) || IsUpper(p[i])) ==> !ok
  {
    && |p| >= MinPasswordLength
    && (exists i :: 0 <= i < |p| && IsLower(p[i]))
    && (exists i :: 0 <= i < |p| && IsUpper(p[i]))
    && (exists i :: 0 <= i < |p| && IsDigit(p[i]))
    && (exists i :: 0 <= i < |p| && IsSymbol(p[i]))
  }

  /** The registration name rule: 2 to 100 characters after trimming. */
  predicate NameValid(name: string): (ok: bool)
    ensures ok ==> |name| >= 2
    ensures Blank(name) ==> !ok
  {
    2 <= |Trim(name)| <= 100
  }

  // ---------------------------------------------------------------------
  // Lookups and decisions

  /** `SELECT ... FROM users WHERE email = ? LIMIT 1`. */
  function UserWithEmail(users: seq<User>, email: string): (r: Option<nat>)
    ensures r.Some? ==> r.value < |users| && users[r.value].email == email
    ensures r.None? <==> forall i :: 0 <= i < |users| ==> users[i].email != email
  {
    FirstWhere(users, (u: User) => u.email == email)
  }

  /** The login decision: the email belongs to a user and the password
      matches that user's stored hash. */
  function CheckCredentials(users: seq<User>, email: string, password: string,
                            matches: (string, Hash) -> bool): (r: Option<nat>)
    ensures r.Some? ==> r.value < |users| && users[r.value].email == email
                        && matches(password, users[r.value].passwordHash)
  {
    var found := UserWithEmail(users, email);
    if found.Some? && matches(password, users[found.value].passwordHash) then found else None
  }

  /** With unique emails, login succeeds exactly when some user has that
      email and the password matches that user's hash; an unknown email and
      a wrong password are the same failure. */
  lemma CredentialsExact(users: seq<User>, email: string, password: string, matches: (string, Hash) -> bool)
    requires EmailsUnique(users)
    ensures CheckCredentials(users, email, password, matches).Some? <==>
      exists i :: 0 <= i < |users| && users[i].email == email && matches(password, users[i].passwordHash)
  {
    var found := UserWithEmail(users, email);
    if i :| 0 <= i < |users| && users[i].email == email && matches(password, users[i].passwordHash) {
      assert found.Some?;
    }
  }

  /** `req.session.returnTo || "/"`: the recorded URL when there is a
      non-empty one, else the home page. */
  function ReturnTarget(returnTo: Option<string>): (t: string)
    ensures t != ""
    ensures returnTo.Some? && returnTo.value != "" ==> t == returnTo.value
    ensures returnTo.None? || returnTo.value == "" ==> t == "/"
  {
    if returnTo.Some? && returnTo.value != "" then returnTo.value else "/"
  }

  /** `SELECT ... FROM password_resets WHERE token_hash = ? LIMIT 1`. */
  function ResetRowFor(resets: seq<ResetRow>, tokenHash: string): (r: Option<nat>)
    ensures r.Some? ==> r.value < |resets| && resets[r.value].tokenHash == tokenHash
    ensures r.Some? ==> forall k :: 0 <= k < r.value ==> resets[k].tokenHash != tokenHash
    ensures r.None? <==> forall k :: 0 <= k < |resets| ==> resets[k].tokenHash != tokenHash
  {
    FirstWhere(resets, (row: ResetRow) => row.tokenHash == tokenHash)
  }

  /** The token check of both reset routes: a row is found, it is unused,
      and its expiry is not earlier than now. */
  function AcceptedReset(resets: seq<ResetRow>, tokenHash: string, now: Millis): (r: Option<nat>)
    ensures r.Some? <==> (ResetRowFor(resets, tokenHash).Some?
                          && !resets[ResetRowFor(resets, tokenHash).value].used
                          && !(resets[ResetRowFor(resets, tokenHash).value].expiresAt < now))
    ensures r.Some? ==> r == ResetRowFor(resets, tokenHash)
  {
    var found := ResetRowFor(resets, tokenHash);
    if found.Some? && !resets[found.value].used && !(resets[found.value].expiresAt < now) then found else None
  }

  /** Once its row is marked used, a token is rejected at any later time. */
  lemma UsedTokenRejected(resets: seq<ResetRow>, tokenHash: string, now: Millis, later: Millis, i: nat)
    requires AcceptedReset(resets, tokenHash, now) == Some(i)
    ensures AcceptedReset(resets[i := resets[i].(used := true)], tokenHash, later).None?
  {
    var after := resets[i := resets[i].(used := true)];
    assert forall k :: 0 <= k < |resets| ==> after[k].tokenHash == resets[k].tokenHash;
    assert ResetRowFor(after, tokenHash) == Some(i);
  }

  /** A freshly issued token, whose hash no earlier row carries, is
      accepted exactly up to one hour after issue. */
  lemma FreshTokenWindow(resets: seq<ResetRow>, userId: nat, tokenHash: string, issuedAt: Millis, t: Millis)
    requires forall k :: 0 <= k < |resets| ==> resets[k].tokenHash != tokenHash
    ensures AcceptedReset(resets + [ResetRow(userId, tokenHash, issuedAt + ResetLifetime, false)], tokenHash, t).Some?
        <==> t <= issuedAt + ResetLifetime
  {
    var after := resets + [ResetRow(userId, tokenHash, issuedAt + ResetLifetime, false)];
    assert after[|resets|].tokenHash == tokenHash;
    assert ResetRowFor(after, tokenHash) == Some(|resets|);
  }

  // ---------------------------------------------------------------------
  // Route handlers

  datatype RegisterResult = RegisterInvalid | EmailTaken | Registered(userId: nat)

  /** POST /register. `email` is the normalised address, `None` when the
      text is not an email; `hashed` is the hash of `password`;
      `defaultRole` is the role column's default. */
  method Register(db: AccountDb, name: string, email: Option<string>, password: string,
                  hashed: Hash, defaultRole: string) returns (r: RegisterResult)
    requires db.Valid()
    modifies db
    ensures db.Valid()
    ensures r == RegisterInvalid <==> !(NameValid(name) && email.Some? && StrongPassword(password))
    ensures r == EmailTaken <==>
      NameValid(name) && email.Some? && StrongPassword(password) && old(UserWithEmail(db.users, email.value)).Some?
    ensures !r.Registered? ==> unchanged(db)
    ensures r.Registered? ==>
      && r.userId == |old(db.users)|
      && db.users == old(db.users) + [User(Trim(name), email.value, hashed, defaultRole, None, None)]
      && db.resets == old(db.resets)
  {
    if !(NameValid(name) && email.Some? && StrongPassword(password)) {
      return RegisterInvalid;
    }
    var exist := UserWithEmail(db.users, email.value);
    if exist.Some? {
      return EmailTaken;
    }
    var id := |db.users|;
    db.users := db.users + [User(Trim(name), email.value, hashed, defaultRole, None, None)];
    return Registered(id);
  }

  datatype LoginResult = LoginInvalid | BadCredentials | LoggedIn(redirectTo: string)

  /** POST /login. `matches(password, hash)` is the password comparison. */
  method Login(db: AccountDb, session: Session, email: Option<string>, password: string,
               matches: (string, Hash) -> bool, now: Millis) returns (r: LoginResult)
    requires db.Valid()
    modifies db, session
    ensures db.Valid()
    ensures r == LoginInvalid <==> email.None? || |password| < LoginMinPasswordLength
    ensures r == BadCredentials <==>
      email.Some? && |password| >= LoginMinPasswordLength && old(CheckCredentials(db.users, email.value, password, matches)).None?
    ensures !r.LoggedIn? ==> unchanged(db) && unchanged(session)
    ensures r.LoggedIn? ==>
      var i := old(CheckCredentials(db.users, email.value, password, matches)).value;
      var u := old(db.users[i]);
      && db.users == old(db.users)[i := u.(lastLoginAt := Some(now))]
      && db.resets == old(db.resets)
      && session.user == Some(SessionUser(i, u.name, u.email, u.role))
      && r.redirectTo == ReturnTarget(old(session.returnTo))
      && session.returnTo == None
  {
    if email.None? || |password| < LoginMinPasswordLength {
      return LoginInvalid;
    }
    var found := CheckCredentials(db.users, email.value, password, matches);
    if found.None? {
      return BadCredentials;
    }
    var i := found.value;
    var u := db.users[i];
    db.users := db.users[i := u.(lastLoginAt := Some(now))];
    session.user := Some(SessionUser(i, u.name, u.email, u.role));
    var redirectTo := ReturnTarget(session.returnTo);
    session.returnTo := None;
    return LoggedIn(redirectTo);
  }

  datatype ForgotResult = ForgotInvalid | ResetLinkInfo

  /** POST /forgot. A known email gets a reset row holding `digest(token)`
      for the random `token` and expiring an hour from `now`; an unknown
      email gets the same answer and no row. */
  method Forgot(db: AccountDb, email: Option<string>, token: string, digest: string -> string, now: Millis)
    returns (r: ForgotResult)
    requires db.Valid()
    modifies db
    ensures db.Valid()
    ensures r == ForgotInvalid <==> email.None?
    ensures db.users == old(db.users)
    ensures email.None? || old(UserWithEmail(db.users, email.value)).None? ==> unchanged(db)
    ensures email.Some? && old(UserWithEmail(db.users, email.value)).Some? ==>
      db.resets == old(db.resets) +
        [ResetRow(old(UserWithEmail(db.users, email.value)).value, digest(token), now + ResetLifetime, false)]
  {
    if email.None? {
      return ForgotInvalid;
    }
    var found := UserWithEmail(db.users, email.value);
    if found.None? {
      return ResetLinkInfo;
    }
    db.resets := db.resets + [ResetRow(found.value, digest(token), now + ResetLifetime, false)];
    return ResetLinkInfo;
  }

  /** GET /reset/:token: the form is shown only for an accepted token. */
  function ResetPageOpens(db: AccountDb, token: string, digest: string -> string, now: Millis): (opens: bool)
    reads db
    ensures opens <==>
      var f := ResetRowFor(db.resets, digest(token));
      f.Some? && !db.resets[f.value].used && now <= db.resets[f.value].expiresAt
  {
    AcceptedReset(db.resets, digest(token), now).Some?
  }

  datatype ResetResult = WeakPassword | InvalidToken | PasswordChanged

  /** POST /reset/:token: with a strong password and an accepted token, the
      token's user gets the new hash and the token's row is marked used. */
  method ResetPassword(db: AccountDb, token: string, password: string, hashed: Hash,
                       digest: string -> string, now: Millis) returns (r: ResetResult)
    requires db.Valid()
    modifies db
    ensures db.Valid()
    ensures r == WeakPassword <==> !StrongPassword(password)
    ensures r == InvalidToken <==> StrongPassword(password) && old(AcceptedReset(db.resets, digest(token), now)).None?
    ensures !(r == PasswordChanged) ==> unchanged(db)
    ensures r == PasswordChanged ==>
      var k := old(AcceptedReset(db.resets, digest(token), now)).value;
      var u := old(db.resets[k].userId);
      && db.users == old(db.users)[u := old(db.users[u]).(passwordHash := hashed, updatedAt := Some(now))]
      && db.resets == old(db.resets)[k := old(db.resets[k]).(used := true)]
    ensures r == PasswordChanged ==>
      forall later :: AcceptedReset(db.resets, digest(token), later).None?
  {
    if !StrongPassword(password) {
      return WeakPassword;
    }
    var found := AcceptedReset(db.resets, digest(token), now);
    if found.None? {
      return InvalidToken;
    }
    var k := found.value;
    var u := db.resets[k].userId;
    ghost var before := db.resets;
    db.users := db.users[u := db.users[u].(passwordHash := hashed, updatedAt := Some(now))];
    db.resets := db.resets[k := db.resets[k].(used := true)];
    forall later
      ensures AcceptedReset(db.resets, digest(token), later).None?
    {
      UsedTokenRejected(before, digest(token), now, later, k);
    }
    return PasswordChanged;
  }
}
