/** AuthenticateUser (internal/service/authentication.go): login-or-register.
    An unknown username is registered with the starting grant; a known one is
    checked by plain password equality. */
module Authentication {
  import opened Wrappers
  import opened Model
  import opened Errors
  import opened Store
  import opened Ledger

  /** The coins a new account starts with. */
  const StartingGrant: int := 1000

  /** The effect of AuthenticateUser on the store. The lookup error is told
      apart by its message, as the code compares `err.Error()` with
      "user not found". */
  function AuthSpec(s: State, faults: Faults, req: AuthRequest): (r: (Result<User, Error>, State))
    ensures r.0.Failure? ==> r.1 == s
    ensures WellFormed(s) ==> WellFormed(r.1)
    ensures WellFormed(s) && r.0.Success? ==>
              && r.0.value.username == req.username && r.0.value.password == req.password
              && r.0.value.id in r.1.users && r.1.users[r.0.value.id] == r.0.value
  {
    match LookupName(s, faults, req.username)
    case Failure(e) =>
      if e.Message() == "user not found" then
        var newUser := User(0, req.username, req.password, StartingGrant);
        var (created, s1) := Inserted(s, faults, newUser);
        match created
        case Failure(e2) => (Failure(e2), s1)
        case Success(id) => (Success(newUser.(id := id)), s1)
      else (Failure(e), s)
    case Success(user) =>
      if user.password != req.password then (Failure(InvalidCredentials), s)
      else (Success(user), s)
  }

  method AuthenticateUser(repo: Repository, req: AuthRequest) returns (r: Result<User, Error>)
    requires repo.Valid()
    modifies repo
    ensures repo.Valid()
    ensures (r, repo.Snapshot()) == AuthSpec(old(repo.Snapshot()), repo.faults, req)
  {
    var found := repo.GetUserByUsername(req.username);
    if found.Failure? {
      if found.error.Message() == "user not found" {
        var newUser := User(0, req.username, req.password, StartingGrant);
        var created := repo.CreateUser(newUser);
        if created.Failure? {
          return Failure(created.error);
        }
        newUser := newUser.(id := created.value);
        return Success(newUser);
      }
      return Failure(found.error);
    }
    var user := found.value;
    if user.password != req.password {
      return Failure(InvalidCredentials);
    }
    return Success(user);
  }

  /** An unknown username is registered: the new account has that username,
      the password verbatim, 1000 coins and the id the store assigns; it is
      returned, and nothing else in the store changes. */
  lemma RegisterUnknownUser(s: State, faults: Faults, req: AuthRequest)
    requires WellFormed(s)
    requires ByUsername(req.username) !in faults && InsertUser(req.username) !in faults
    requires !NameTaken(s, req.username)
    ensures var (r, t) := AuthSpec(s, faults, req);
      && r == Success(User(s.nextId, req.username, req.password, 1000))
      && s.nextId !in s.users
      && t.users == s.users[s.nextId := r.value]
      && t.transactions == s.transactions && t.purchases == s.purchases
      && LookupName(t, faults, req.username) == r
      && TotalCoins(t.users) == TotalCoins(s.users) + 1000
  {
    var u := User(s.nextId, req.username, req.password, 1000);
    var t := AuthSpec(s, faults, req).1;
    assert t.byName[req.username] == s.nextId;
    AddOneUser(s.users, s.nextId, u);
  }

  /** A known username with the right password returns the stored account and
      writes nothing. */
  lemma LoginWithMatchingPassword(s: State, faults: Faults, req: AuthRequest, user: User)
    requires LookupName(s, faults, req.username) == Success(user)
    requires user.password == req.password
    ensures AuthSpec(s, faults, req) == (Success(user), s)
  {
  }

  /** A known username with a different password is refused with
      "invalid credentials" and writes nothing. */
  lemma LoginWithWrongPassword(s: State, faults: Faults, req: AuthRequest, user: User)
    requires LookupName(s, faults, req.username) == Success(user)
    requires user.password != req.password
    ensures AuthSpec(s, faults, req) == (Failure(InvalidCredentials), s)
  {
  }

  /** When the lookup reports "user not found" but CreateUser fails, its error
      is returned and no account is created. */
  lemma CreateUserFailurePropagates(s: State, faults: Faults, req: AuthRequest)
    requires LookupName(s, faults, req.username).Failure?
    requires LookupName(s, faults, req.username).error.Message() == "user not found"
    requires Inserted(s, faults, User(0, req.username, req.password, 1000)).0.Failure?
    ensures AuthSpec(s, faults, req)
              == (Failure(Inserted(s, faults, User(0, req.username, req.password, 1000)).0.error), s)
  {
  }

  /** The duplicate-username error: a lookup that fails with the text
      "user not found" although the name is taken sends the code into
      CreateUser, whose unique constraint refuses with "user already exists". */
  lemma DuplicateRegistrationRefused(s: State, faults: Faults, req: AuthRequest)
    requires WellFormed(s)
    requires ByUsername(req.username) in faults && faults[ByUsername(req.username)] == "user not found"
    requires InsertUser(req.username) !in faults
    requires NameTaken(s, req.username)
    ensures AuthSpec(s, faults, req) == (Failure(UserAlreadyExists), s)
  {
  }

  /** Any other lookup error is returned as it is, without creating a user. */
  lemma OtherLookupErrorPropagates(s: State, faults: Faults, req: AuthRequest)
    requires LookupName(s, faults, req.username).Failure?
    requires LookupName(s, faults, req.username).error.Message() != "user not found"
    ensures AuthSpec(s, faults, req) == (Failure(LookupName(s, faults, req.username).error), s)
  {
  }

  /** After a successful authentication, authenticating again with the same
      credentials returns the same account and changes nothing: no second
      account, no change of balance. */
  lemma ReauthenticationIsStable(s: State, faults: Faults, req: AuthRequest)
    requires WellFormed(s)
    requires ByUsername(req.username) !in faults
    requires AuthSpec(s, faults, req).0.Success?
    ensures var (r, t) := AuthSpec(s, faults, req);
      AuthSpec(t, faults, req) == (r, t)
  {
    var (r, t) := AuthSpec(s, faults, req);
    if !NameTaken(s, req.username) {
      assert t.byName[req.username] == s.nextId;
    }
  }

  /** Authentication never touches balances already stored, the transactions
      or the purchases; it only may add one account. */
  lemma AuthKeepsExistingAccounts(s: State, faults: Faults, req: AuthRequest)
    requires WellFormed(s)
    ensures var t := AuthSpec(s, faults, req).1;
      && (forall id :: id in s.users ==> id in t.users && t.users[id] == s.users[id])
      && |t.users| <= |s.users| + 1
      && t.transactions == s.transactions && t.purchases == s.purchases
  {
  }

  /** Every outcome of authentication keeps the ledger consistent. */
  lemma AuthPreservesInvariant(s: State, faults: Faults, req: AuthRequest)
    requires LedgerInvariant(s)
    ensures LedgerInvariant(AuthSpec(s, faults, req).1)
  {
  }
}
