/** PurchaseItem (internal/service/purchase.go): price the item from the fixed
    catalog, look up the buyer, check the balance, debit, then record the
    purchase and a "purchase" transaction with no source. The three writes are
    independent store calls with no rollback. */
module Purchasing {
  import opened Wrappers
  import opened Model
  import opened Errors
  import opened Store
  import opened Ledger

  /** The merch catalog: item name to price. */
  const Catalog: map<string, int> := map[
    "t-shirt" := 80,
    "cup" := 20,
    "book" := 50,
    "pen" := 10,
    "powerbank" := 200,
    "hoody" := 300,
    "umbrella" := 200,
    "socks" := 10,
    "wallet" := 50,
    "pink-hoody" := 500
  ]

  /** Every item of the catalog has a positive price: the cheapest items
      cost 10 coins and the dearest 500, half the starting grant. */
  lemma CatalogShape()
    ensures forall item :: item in Catalog ==> 10 <= Catalog[item] <= 500
    ensures "pen" in Catalog && Catalog["pen"] == 10 && "pink-hoody" in Catalog && Catalog["pink-hoody"] == 500
  {
  }

  /** The purchase row for `user` buying `item`; the store assigns its id. */
  function PurchaseRecord(user: User, item: string, price: int): Model.Purchase {
    Model.Purchase(0, user.id, item, price)
  }

  /** The transaction a purchase records: no source, the buyer as destination. */
  function MintRecord(user: User, price: int): Transaction {
    Transaction(0, None, user.id, price, PurchaseType)
  }

  /** The effect of PurchaseItem on the store, call by call. */
  function PurchaseSpec(s: State, faults: Faults, username: string, item: string): (r: (Outcome<Error>, State))
    ensures SameAccounts(s, r.1)
    ensures r.0.Fail? ==> r.1.transactions == s.transactions && |r.1.purchases| <= |s.purchases| + 1
    ensures r.0.Pass? ==> |r.1.purchases| == |s.purchases| + 1 && |r.1.transactions| == |s.transactions| + 1
  {
    if item !in Catalog then (Fail(ItemNotFound), s)
    else
      match LookupName(s, faults, username)
      case Failure(e) => (Fail(e), s)
      case Success(user) =>
        if user.coins < Catalog[item] then (Fail(InsufficientCoins), s)
        else PurchaseWrites(s, faults, user, item, Catalog[item])
  }

  /** The write phase: the debited user, then the purchase row, then the
      transaction; each failure stops the sequence and nothing is undone. */
  function PurchaseWrites(s: State, faults: Faults, user: User, item: string, price: int): (r: (Outcome<Error>, State))
    ensures SameAccounts(s, r.1)
    ensures r.0.Fail? ==> r.1.transactions == s.transactions && |r.1.purchases| <= |s.purchases| + 1
    ensures r.0.Pass? ==>
              && r.1.purchases == s.purchases + [PurchaseRecord(user, item, price).(id := |s.purchases| + 1)]
              && r.1.transactions == s.transactions + [MintRecord(user, price).(id := |s.transactions| + 1)]
  {
    var debited := user.(coins := user.coins - price);
    var (out1, s1) := Updated(s, faults, debited);
    if out1.Fail? then (out1, s1)
    else
      var (out2, s2) := AppendedPurchase(s1, faults, PurchaseRecord(debited, item, price));
      if out2.Fail? then (out2, s2)
      else AppendedTransaction(s2, faults, MintRecord(debited, price))
  }

  /** None of the three writes of this purchase fails. */
  predicate WritesSucceed(faults: Faults, user: User, item: string, price: int) {
    && Update(user.(coins := user.coins - price)) !in faults
    && InsertPurchase(PurchaseRecord(user, item, price)) !in faults
    && InsertTransaction(MintRecord(user, price)) !in faults
  }

  method PurchaseItem(repo: Repository, username: string, item: string) returns (r: Outcome<Error>)
    requires repo.Valid()
    modifies repo
    ensures repo.Valid()
    ensures (r, repo.Snapshot()) == PurchaseSpec(old(repo.Snapshot()), repo.faults, username, item)
  {
    if item !in Catalog {
      return Fail(ItemNotFound);
    }
    var price := Catalog[item];
    var found := repo.GetUserByUsername(username);
    if found.Failure? {
      return Fail(found.error);
    }
    var user := found.value;
    if user.coins < price {
      return Fail(InsufficientCoins);
    }
    user := user.(coins := user.coins - price);
    r := repo.UpdateUser(user);
    if r.Fail? {
      return;
    }
    r := repo.CreatePurchase(PurchaseRecord(user, item, price));
    if r.Fail? {
      return;
    }
    r := repo.CreateTransaction(MintRecord(user, price));
  }

  /** An item outside the catalog is refused before the store is consulted:
      the answer is "item not found" whatever the store holds or fails on. */
  lemma UnknownItemRefused(s: State, faults: Faults, username: string, item: string)
    requires item !in Catalog
    ensures PurchaseSpec(s, faults, username, item) == (Fail(ItemNotFound), s)
  {
  }

  /** The purchase succeeds exactly when the item is in the catalog, the buyer
      resolves with at least its price, and no write fails. */
  lemma PurchaseSucceedsIff(s: State, faults: Faults, username: string, item: string)
    ensures PurchaseSpec(s, faults, username, item).0.Pass? <==>
              && item in Catalog
              && LookupName(s, faults, username).Success?
              && LookupName(s, faults, username).value.coins >= Catalog[item]
              && WritesSucceed(faults, LookupName(s, faults, username).value, item, Catalog[item])
  {
  }

  /** With fewer coins than the price the purchase reports "insufficient
      coins" and nothing is written. */
  lemma PurchaseInsufficientCoins(s: State, faults: Faults, username: string, item: string, user: User)
    requires item in Catalog
    requires LookupName(s, faults, username) == Success(user)
    requires user.coins < Catalog[item]
    ensures PurchaseSpec(s, faults, username, item) == (Fail(InsufficientCoins), s)
  {
  }

  /** The store changes only after the item, the buyer and the balance have
      all been checked. */
  lemma PurchaseChecksBeforeWrites(s: State, faults: Faults, username: string, item: string)
    requires PurchaseSpec(s, faults, username, item).1 != s
    ensures item in Catalog
    ensures LookupName(s, faults, username).Success?
    ensures LookupName(s, faults, username).value.coins >= Catalog[item]
  {
  }

  /** A successful purchase takes exactly the catalog price from the buyer
      (who stays non-negative), touches no other account, appends one
      purchase row and one sourceless "purchase" transaction, and removes the
      price from circulation. */
  lemma PurchaseDebitsPrice(s: State, faults: Faults, username: string, item: string, user: User)
    requires WellFormed(s)
    requires LookupName(s, faults, username) == Success(user)
    requires PurchaseSpec(s, faults, username, item).0.Pass?
    ensures item in Catalog
    ensures var t := PurchaseSpec(s, faults, username, item).1;
      && t.users.Keys == s.users.Keys
      && t.users[user.id].coins == s.users[user.id].coins - Catalog[item] >= 0
      && (forall id :: id in s.users && id != user.id ==> t.users[id] == s.users[id])
      && t.purchases == s.purchases + [Model.Purchase(|s.purchases| + 1, user.id, item, Catalog[item])]
      && t.transactions == s.transactions
                           + [Transaction(|s.transactions| + 1, None, user.id, Catalog[item], PurchaseType)]
      && TotalCoins(t.users) == TotalCoins(s.users) - Catalog[item]
  {
    var s1 := Rewritten(s, user.(coins := user.coins - Catalog[item]));
    RewrittenChangesOneRow(s, user.(coins := user.coins - Catalog[item]));
    assert s1.users == s.users[user.id := s1.users[user.id]];
    ChangeOneBalance(s.users, user.id, s1.users[user.id]);
  }

  /** Only a balance strictly below the price is refused: a balance equal to
      the price is accepted and ends at zero. */
  lemma PurchaseExactBalance(s: State, faults: Faults, username: string, item: string, user: User)
    requires WellFormed(s)
    requires item in Catalog
    requires LookupName(s, faults, username) == Success(user)
    requires user.coins == Catalog[item]
    requires WritesSucceed(faults, user, item, Catalog[item])
    ensures PurchaseSpec(s, faults, username, item).0.Pass?
    ensures PurchaseSpec(s, faults, username, item).1.users[user.id].coins == 0
  {
    RewrittenChangesOneRow(s, user.(coins := 0));
  }

  /** Every outcome of a purchase, complete or cut short by a failed write,
      keeps the ledger consistent. */
  lemma PurchasePreservesInvariant(s: State, faults: Faults, username: string, item: string)
    requires LedgerInvariant(s)
    ensures LedgerInvariant(PurchaseSpec(s, faults, username, item).1)
  {
    if item in Catalog && LookupName(s, faults, username).Success? {
      var user := LookupName(s, faults, username).value;
      if user.coins >= Catalog[item] {
        CatalogShape();
        WritesPreserveInvariant(s, faults, user, item, Catalog[item]);
      }
    }
  }

  /** The write phase, however far it gets, keeps the ledger consistent. */
  lemma WritesPreserveInvariant(s: State, faults: Faults, user: User, item: string, price: int)
    requires LedgerInvariant(s)
    requires user.id in s.users && price > 0 && user.coins >= price
    ensures LedgerInvariant(PurchaseWrites(s, faults, user, item, price).1)
  {
    var debited := user.(coins := user.coins - price);
    RewriteKeepsInvariant(s, debited);
    RewrittenChangesOneRow(s, debited);
    var s1 := Rewritten(s, debited);
    AppendPurchaseKeepsInvariant(s1, PurchaseRecord(debited, item, price));
    var s2 := s1.(purchases := s1.purchases + [PurchaseRecord(debited, item, price).(id := |s1.purchases| + 1)]);
    AppendTransactionKeepsInvariant(s2, MintRecord(debited, price));
  }
}
