/** The account store behind the `Repository` interface: users, transactions
    and purchases, with the semantics of the Postgres implementation. Lookups
    return copies of the stored row. Every call may fail in the store's
    transport; which calls fail, and with what message, is given by the
    repository's `faults`. */
module Store {
  import opened Wrappers
  import opened Model
  import opened Errors

  /** A call made to the store, identified by its arguments. */
  datatype Call =
    | ByUsername(username: string)
    | ById(id: int)
    | InsertUser(username: string)
    | Update(user: User)
    | InsertTransaction(tx: Transaction)
    | InsertPurchase(purchase: Purchase)
    | PurchasesQuery(userId: int)
    | ReceivedQuery(userId: int)
    | SentQuery(userId: int)

  /** `faults[c]` present: call `c` fails in the transport with that message. */
  type Faults = map<Call, string>

  /** The tables. `byName` is the unique index on `username`; `nextId` is the
      next value of the users' id sequence. */
  datatype State = State(
    users: map<int, User>,
    byName: map<string, int>,
    nextId: int,
    transactions: seq<Transaction>,
    purchases: seq<Purchase>)

  const Empty: State := State(map[], map[], 1, [], [])

  /** Every user row is stored under its own id, ids are positive and below
      the sequence, and the username index is exact (so usernames are unique). */
  predicate WellFormed(s: State) {
    && 0 < s.nextId
    && (forall id :: id in s.users ==>
          && s.users[id].id == id
          && 0 < id < s.nextId
          && s.users[id].username in s.byName
          && s.byName[s.users[id].username] == id)
    && (forall name :: name in s.byName ==>
          s.byName[name] in s.users && s.users[s.byName[name]].username == name)
  }

  /** Some stored user has this username. */
  predicate NameTaken(s: State, username: string) {
    exists id :: id in s.users && s.users[id].username == username
  }

  /** GetUserByUsername: the row whose username matches, or "user not found". */
  function LookupName(s: State, faults: Faults, username: string): (r: Result<User, Error>)
    ensures ByUsername(username) in faults ==> r == Failure(Transport(faults[ByUsername(username)]))
    ensures WellFormed(s) && ByUsername(username) !in faults ==>
              (r.Success? <==> NameTaken(s, username)) && (r.Failure? ==> r.error == UserNotFound)
    ensures WellFormed(s) && r.Success? ==>
              r.value.id in s.users && s.users[r.value.id] == r.value && r.value.username == username
  {
    if ByUsername(username) in faults then Failure(Transport(faults[ByUsername(username)]))
    else if username in s.byName && s.byName[username] in s.users then
      var id := s.byName[username];
      assert WellFormed(s) ==> s.users[id].username == username;
      Success(s.users[id])
    else Failure(UserNotFound)
  }

  /** GetUserByID: the row with this id, or "user not found". */
  function LookupId(s: State, faults: Faults, id: int): (r: Result<User, Error>)
    ensures r.Success? <==> ById(id) !in faults && id in s.users
    ensures r.Success? ==> r.value == s.users[id]
    ensures r.Failure? ==>
              r.error == if ById(id) in faults then Transport(faults[ById(id)]) else UserNotFound
  {
    if ById(id) in faults then Failure(Transport(faults[ById(id)]))
    else if id in s.users then Success(s.users[id])
    else Failure(UserNotFound)
  }

  /** CreateUser: inserts a row with the next id, unless the username is taken
      (the unique constraint) or the transport fails; returns the new id. */
  function Inserted(s: State, faults: Faults, u: User): (r: (Result<int, Error>, State))
    ensures r.0.Failure? ==> r.1 == s
    ensures WellFormed(s) ==> WellFormed(r.1)
    ensures InsertUser(u.username) in faults ==>
              r.0 == Failure(Transport(faults[InsertUser(u.username)]))
    ensures WellFormed(s) && InsertUser(u.username) !in faults ==>
              (r.0.Success? <==> !NameTaken(s, u.username))
    ensures WellFormed(s) && InsertUser(u.username) !in faults && NameTaken(s, u.username) ==>
              r.0 == Failure(UserAlreadyExists)
    ensures r.0.Success? ==>
              && r.0.value == s.nextId
              && r.1.users == s.users[s.nextId := u.(id := s.nextId)]
              && r.1.transactions == s.transactions
              && r.1.purchases == s.purchases
  {
    if InsertUser(u.username) in faults then (Failure(Transport(faults[InsertUser(u.username)])), s)
    else if u.username in s.byName then
      var id := s.byName[u.username];
      assert WellFormed(s) ==> id in s.users && s.users[id].username == u.username;
      (Failure(UserAlreadyExists), s)
    else
      var id := s.nextId;
      (Success(id), s.(users := s.users[id := u.(id := id)], byName := s.byName[u.username := id], nextId := id + 1))
  }

  /** The row `u.id` with the password and coins of `u` written over it. */
  function Rewritten(s: State, u: User): State {
    if u.id in s.users then s.(users := s.users[u.id := s.users[u.id].(password := u.password, coins := u.coins)])
    else s
  }

  /** UpdateUser: `UPDATE users SET password, coins WHERE id`; a missing id
      updates nothing and is not an error. */
  function Updated(s: State, faults: Faults, u: User): (r: (Outcome<Error>, State))
    ensures r.0.Fail? <==> Update(u) in faults
    ensures r.0.Fail? ==> r.0.error == Transport(faults[Update(u)]) && r.1 == s
    ensures r.0.Pass? ==> r.1 == Rewritten(s, u)
  {
    if Update(u) in faults then (Fail(Transport(faults[Update(u)])), s)
    else (Pass, Rewritten(s, u))
  }

  /** `t` has the accounts of `s`: the same ids, the same username index and
      the same id sequence (balances and passwords may differ). */
  predicate SameAccounts(s: State, t: State) {
    t.users.Keys == s.users.Keys && t.byName == s.byName && t.nextId == s.nextId
  }

  /** An update changes only the password and balance of the row `u.id`. */
  lemma RewrittenChangesOneRow(s: State, u: User)
    ensures var t := Rewritten(s, u);
      && t.users.Keys == s.users.Keys
      && t.byName == s.byName && t.nextId == s.nextId
      && t.transactions == s.transactions && t.purchases == s.purchases
      && (forall id :: id in s.users && id != u.id ==> t.users[id] == s.users[id])
      && (u.id in s.users ==>
            t.users[u.id] == s.users[u.id].(password := u.password, coins := u.coins))
      && (WellFormed(s) ==> WellFormed(t))
  {
  }

  /** CreateTransaction: appends the record under the next row number. */
  function AppendedTransaction(s: State, faults: Faults, t: Transaction): (r: (Outcome<Error>, State))
    ensures r.0.Fail? <==> InsertTransaction(t) in faults
    ensures r.1 == if r.0.Fail? then s else s.(transactions := s.transactions + [t.(id := |s.transactions| + 1)])
  {
    if InsertTransaction(t) in faults then (Fail(Transport(faults[InsertTransaction(t)])), s)
    else (Pass, s.(transactions := s.transactions + [t.(id := |s.transactions| + 1)]))
  }

  /** CreatePurchase: appends the record under the next row number. */
  function AppendedPurchase(s: State, faults: Faults, p: Purchase): (r: (Outcome<Error>, State))
    ensures r.0.Fail? <==> InsertPurchase(p) in faults
    ensures r.1 == if r.0.Fail? then s else s.(purchases := s.purchases + [p.(id := |s.purchases| + 1)])
  {
    if InsertPurchase(p) in faults then (Fail(Transport(faults[InsertPurchase(p)])), s)
    else (Pass, s.(purchases := s.purchases + [p.(id := |s.purchases| + 1)]))
  }

  /** `SELECT … FROM purchases WHERE user_id = $1`, in insertion order. */
  function PurchasesByUser(ps: seq<Purchase>, userId: int): (r: seq<Purchase>)
    ensures |r| <= |ps|
    ensures forall p :: p in r <==> p in ps && p.userId == userId
    ensures forall p :: multiset(r)[p] == if p.userId == userId then multiset(ps)[p] else 0
    decreases |ps|
  {
    if ps == [] then []
    else
      assert ps == ps[..|ps| - 1] + [ps[|ps| - 1]]; PurchasesByUser(ps[..|ps| - 1], userId) + (if ps[|ps| - 1].userId == userId then [ps[|ps| - 1]] else [])
  }

  /** `SELECT … FROM transactions WHERE to_user_id = $1`, whatever the type. */
  function TransactionsTo(ts: seq<Transaction>, userId: int): (r: seq<Transaction>)
    ensures |r| <= |ts|
    ensures forall t :: t in r <==> t in ts && t.toUserId == userId
    ensures forall t :: multiset(r)[t] == if t.toUserId == userId then multiset(ts)[t] else 0
    decreases |ts|
  {
    if ts == [] then []
    else
      assert ts == ts[..|ts| - 1] + [ts[|ts| - 1]]; TransactionsTo(ts[..|ts| - 1], userId) + (if ts[|ts| - 1].toUserId == userId then [ts[|ts| - 1]] else [])
  }

  /** `SELECT … FROM transactions WHERE from_user_id = $1`: a NULL source never matches. */
  function TransactionsFrom(ts: seq<Transaction>, userId: int): (r: seq<Transaction>)
    ensures |r| <= |ts|
    ensures forall t :: t in r <==> t in ts && t.fromUserId == Some(userId)
    ensures forall t :: multiset(r)[t] == if t.fromUserId == Some(userId) then multiset(ts)[t] else 0
    decreases |ts|
  {
    if ts == [] then []
    else
      assert ts == ts[..|ts| - 1] + [ts[|ts| - 1]]; TransactionsFrom(ts[..|ts| - 1], userId) + (if ts[|ts| - 1].fromUserId == Some(userId) then [ts[|ts| - 1]] else [])
  }

  /** A query result, or the transport failure of the query. */
  function Query<T>(faults: Faults, c: Call, rows: seq<T>): (r: Result<seq<T>, Error>)
    ensures r.Failure? <==> c in faults
    ensures r.Success? ==> r.value == rows
  {
    if c in faults then Failure(Transport(faults[c])) else Success(rows)
  }

  /** The store as an object: each call reads or reassigns its tables. */
  class Repository {
    var users: map<int, User>
    var byName: map<string, int>
    var nextId: int
    var transactions: seq<Transaction>
    var purchases: seq<Purchase>
    const faults: Faults

    function Snapshot(): State
      reads this
    {
      State(users, byName, nextId, transactions, purchases)
    }

    predicate Valid()
      reads this
    {
      WellFormed(Snapshot())
    }

    constructor (faults: Faults)
      ensures Valid() && Snapshot() == Empty && this.faults == faults
    {
      users, byName, nextId := map[], map[], 1;
      transactions, purchases := [], [];
      this.faults := faults;
    }

    method GetUserByUsername(username: string) returns (r: Result<User, Error>)
      ensures r == LookupName(Snapshot(), faults, username)
    {
      if ByUsername(username) in faults {
        return Failure(Transport(faults[ByUsername(username)]));
      }
      if username in byName && byName[username] in users {
        return Success(users[byName[username]]);
      }
      return Failure(UserNotFound);
    }

    method GetUserById(id: int) returns (r: Result<User, Error>)
      ensures r == LookupId(Snapshot(), faults, id)
    {
      if ById(id) in faults {
        return Failure(Transport(faults[ById(id)]));
      }
      if id in users {
        return Success(users[id]);
      }
      return Failure(UserNotFound);
    }

    method CreateUser(u: User) returns (r: Result<int, Error>)
      requires Valid()
      modifies this
      ensures Valid()
      ensures (r, Snapshot()) == Inserted(old(Snapshot()), faults, u)
    {
      if InsertUser(u.username) in faults {
        return Failure(Transport(faults[InsertUser(u.username)]));
      }
      if u.username in byName {
        return Failure(UserAlreadyExists);
      }
      var id := nextId;
      users := users[id := u.(id := id)];
      byName := byName[u.username := id];
      nextId := id + 1;
      return Success(id);
    }

    method UpdateUser(u: User) returns (r: Outcome<Error>)
      requires Valid()
      modifies this
      ensures Valid()
      ensures (r, Snapshot()) == Updated(old(Snapshot()), faults, u)
    {
      if Update(u) in faults {
        return Fail(Transport(faults[Update(u)]));
      }
      RewrittenChangesOneRow(Snapshot(), u);
      if u.id in users {
        users := users[u.id := users[u.id].(password := u.password, coins := u.coins)];
      }
      return Pass;
    }

    method CreateTransaction(t: Transaction) returns (r: Outcome<Error>)
      requires Valid()
      modifies this
      ensures Valid()
      ensures (r, Snapshot()) == AppendedTransaction(old(Snapshot()), faults, t)
    {
      if InsertTransaction(t) in faults {
        return Fail(Transport(faults[InsertTransaction(t)]));
      }
      transactions := transactions + [t.(id := |transactions| + 1)];
      return Pass;
    }

    method CreatePurchase(p: Purchase) returns (r: Outcome<Error>)
      requires Valid()
      modifies this
      ensures Valid()
      ensures (r, Snapshot()) == AppendedPurchase(old(Snapshot()), faults, p)
    {
      if InsertPurchase(p) in faults {
        return Fail(Transport(faults[InsertPurchase(p)]));
      }
      purchases := purchases + [p.(id := |purchases| + 1)];
      return Pass;
    }

    method GetPurchasesByUserId(userId: int) returns (r: Result<seq<Purchase>, Error>)
      ensures r == Query(faults, PurchasesQuery(userId), PurchasesByUser(purchases, userId))
    {
      if PurchasesQuery(userId) in faults {
        return Failure(Transport(faults[PurchasesQuery(userId)]));
      }
      return Success(PurchasesByUser(purchases, userId));
    }

    method GetTransactionsReceivedByUserId(userId: int) returns (r: Result<seq<Transaction>, Error>)
      ensures r == Query(faults, ReceivedQuery(userId), TransactionsTo(transactions, userId))
    {
      if ReceivedQuery(userId) in faults {
        return Failure(Transport(faults[ReceivedQuery(userId)]));
      }
      return Success(TransactionsTo(transactions, userId));
    }

    method GetTransactionsSentByUserId(userId: int) returns (r: Result<seq<Transaction>, Error>)
      ensures r == Query(faults, SentQuery(userId), TransactionsFrom(transactions, userId))
    {
      if SentQuery(userId) in faults {
        return Failure(Transport(faults[SentQuery(userId)]));
      }
      return Success(TransactionsFrom(transactions, userId));
    }
  }
}
