/** Whole-store properties the ledger is meant to keep: balances never go
    negative, every record has the shape of its kind and points at existing
    accounts, and the total of all balances. */
module Ledger {
  import opened Wrappers
  import opened Model
  import opened Store

  /** The consistency every operation should leave behind. */
  predicate LedgerInvariant(s: State) {
    && WellFormed(s)
    && (forall id :: id in s.users ==> s.users[id].coins >= 0)
    && (forall i :: 0 <= i < |s.transactions| ==>
          && WellFormedTransaction(s.transactions[i])
          && s.transactions[i].toUserId in s.users
          && (s.transactions[i].fromUserId.Some? ==> s.transactions[i].fromUserId.value in s.users))
    && (forall i :: 0 <= i < |s.purchases| ==>
          s.purchases[i].price > 0 && s.purchases[i].userId in s.users)
  }

  /** A set of ids that is not empty has a member to take out (a fact the
      verifier does not find by itself inside a function). */
  lemma EmptyOrHasMember(ids: set<int>)
    ensures ids == {} || exists id :: id in ids
  {
    if forall id :: id !in ids {
      assert ids == {};
    }
  }

  /** The sum of the balances of the users whose ids are in `ids`. */
  ghost function SumCoins(users: map<int, User>, ids: set<int>): int
    requires ids <= users.Keys
    decreases ids
  {
    if ids == {} then 0
    else
      EmptyOrHasMember(ids);
      var id :| id in ids;
      users[id].coins + SumCoins(users, ids - {id})
  }

  /** The coins in circulation. */
  ghost function TotalCoins(users: map<int, User>): int {
    SumCoins(users, users.Keys)
  }

  /** The sum does not depend on the order in which ids are taken out. */
  lemma {:induction false} SumCoinsRemove(users: map<int, User>, ids: set<int>, k: int)
    requires ids <= users.Keys && k in ids
    ensures SumCoins(users, ids) == users[k].coins + SumCoins(users, ids - {k})
    decreases ids
  {
    var j :| j in ids && SumCoins(users, ids) == users[j].coins + SumCoins(users, ids - {j});
    if j != k {
      SumCoinsRemove(users, ids - {j}, k);
      SumCoinsRemove(users, ids - {k}, j);
      assert ids - {j} - {k} == ids - {k} - {j};
    }
  }

  /** Users with the same balances on `ids` contribute the same sum. */
  lemma {:induction false} SumCoinsSame(a: map<int, User>, b: map<int, User>, ids: set<int>)
    requires ids <= a.Keys && ids <= b.Keys
    requires forall id :: id in ids ==> a[id].coins == b[id].coins
    ensures SumCoins(a, ids) == SumCoins(b, ids)
    decreases ids
  {
    if ids != {} {
      EmptyOrHasMember(ids);
      var j :| j in ids;
      SumCoinsRemove(a, ids, j);
      SumCoinsRemove(b, ids, j);
      SumCoinsSame(a, b, ids - {j});
    }
  }

  /** Changing one balance by `delta` changes the total by `delta`. */
  lemma ChangeOneBalance(users: map<int, User>, id: int, u: User)
    requires id in users
    ensures TotalCoins(users[id := u]) == TotalCoins(users) + u.coins - users[id].coins
  {
    var after := users[id := u];
    assert after.Keys == users.Keys;
    SumCoinsRemove(users, users.Keys, id);
    SumCoinsRemove(after, after.Keys, id);
    SumCoinsSame(users, after, users.Keys - {id});
  }

  /** Adding a user adds that user's balance. */
  lemma AddOneUser(users: map<int, User>, id: int, u: User)
    requires id !in users
    ensures TotalCoins(users[id := u]) == TotalCoins(users) + u.coins
  {
    var after := users[id := u];
    assert after.Keys - {id} == users.Keys;
    SumCoinsRemove(after, after.Keys, id);
    SumCoinsSame(users, after, users.Keys);
  }

  /** Rewriting one row with a non-negative balance keeps the ledger consistent. */
  lemma RewriteKeepsInvariant(s: State, u: User)
    requires LedgerInvariant(s)
    requires u.id in s.users ==> u.coins >= 0
    ensures LedgerInvariant(Rewritten(s, u))
  {
    RewrittenChangesOneRow(s, u);
  }

  /** Appending a well-formed record between existing accounts keeps the
      ledger consistent. */
  lemma AppendTransactionKeepsInvariant(s: State, t: Transaction)
    requires LedgerInvariant(s)
    requires WellFormedTransaction(t) && t.toUserId in s.users
    requires t.fromUserId.Some? ==> t.fromUserId.value in s.users
    ensures LedgerInvariant(s.(transactions := s.transactions + [t.(id := |s.transactions| + 1)]))
  {
    var after := s.transactions + [t.(id := |s.transactions| + 1)];
    assert forall i :: 0 <= i < |after| ==> after[i] == if i < |s.transactions| then s.transactions[i] else t.(id := |s.transactions| + 1);
  }

  /** Appending a purchase of positive price by an existing account keeps the
      ledger consistent. */
  lemma AppendPurchaseKeepsInvariant(s: State, p: Purchase)
    requires LedgerInvariant(s)
    requires p.price > 0 && p.userId in s.users
    ensures LedgerInvariant(s.(purchases := s.purchases + [p.(id := |s.purchases| + 1)]))
  {
    var after := s.purchases + [p.(id := |s.purchases| + 1)];
    assert forall i :: 0 <= i < |after| ==> after[i] == if i < |s.purchases| then s.purchases[i] else p.(id := |s.purchases| + 1);
  }
}
