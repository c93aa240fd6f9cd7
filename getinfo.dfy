/** GetInfo (internal/service/getinfo.go): a read-only aggregation of one
    account's balance, inventory (purchases counted by item) and coin history.
    A history entry whose counterparty cannot be looked up is skipped, not an
    error. */
module Info {
  import opened Wrappers
  import opened Model
  import opened Errors
  import opened Store
  import opened Ledger

  // ---------------------------------------------------------------- inventory

  /** How many of the purchases are of `item`. */
  function Count(ps: seq<Model.Purchase>, item: string): (c: nat)
    ensures c <= |ps|
    ensures c > 0 <==> exists p :: p in ps && p.item == item
    decreases |ps|
  {
    if ps == [] then 0
    else
      assert forall p :: p in ps <==> p in ps[..|ps| - 1] || p == ps[|ps| - 1];
      Count(ps[..|ps| - 1], item) + (if ps[|ps| - 1].item == item then 1 else 0)
  }

  /** `inv` is an inventory of `ps`: one entry per purchased item, each
      carrying the number of purchases of that item. Order is not fixed. */
  predicate IsInventoryOf(inv: seq<InventoryItem>, ps: seq<Model.Purchase>) {
    && (forall i, j :: 0 <= i < j < |inv| ==> inv[i].itemType != inv[j].itemType)
    && (forall i :: 0 <= i < |inv| ==> inv[i].quantity == Count(ps, inv[i].itemType) > 0)
    && (forall p :: p in ps ==> exists i :: 0 <= i < |inv| && inv[i].itemType == p.item)
  }

  function SumQuantities(inv: seq<InventoryItem>): int {
    if inv == [] then 0 else SumQuantities(inv[..|inv| - 1]) + inv[|inv| - 1].quantity
  }

  /** The sum over the entries of `inv` of the number of purchases of each entry's item. */
  function SumCounts(ps: seq<Model.Purchase>, inv: seq<InventoryItem>): int {
    if inv == [] then 0 else SumCounts(ps, inv[..|inv| - 1]) + Count(ps, inv[|inv| - 1].itemType)
  }

  /** How many entries of `inv` are for `item`. */
  function Occurrences(inv: seq<InventoryItem>, item: string): nat {
    if inv == [] then 0
    else Occurrences(inv[..|inv| - 1], item) + (if inv[|inv| - 1].itemType == item then 1 else 0)
  }

  lemma {:induction false} SumCountsStep(ps: seq<Model.Purchase>, p: Model.Purchase, inv: seq<InventoryItem>)
    ensures SumCounts(ps + [p], inv) == SumCounts(ps, inv) + Occurrences(inv, p.item)
    decreases |inv|
  {
    if inv != [] {
      assert (ps + [p])[..|ps + [p]| - 1] == ps;
      SumCountsStep(ps, p, inv[..|inv| - 1]);
    }
  }

  lemma {:induction false} OccursOnce(inv: seq<InventoryItem>, item: string)
    requires forall i, j :: 0 <= i < j < |inv| ==> inv[i].itemType != inv[j].itemType
    requires exists i :: 0 <= i < |inv| && inv[i].itemType == item
    ensures Occurrences(inv, item) == 1
    decreases |inv|
  {
    var front := inv[..|inv| - 1];
    if inv[|inv| - 1].itemType == item {
      OccursNever(front, item);
    } else {
      var i :| 0 <= i < |inv| && inv[i].itemType == item;
      assert front[i].itemType == item;
      OccursOnce(front, item);
    }
  }

  lemma {:induction false} OccursNever(inv: seq<InventoryItem>, item: string)
    requires forall i :: 0 <= i < |inv| ==> inv[i].itemType != item
    ensures Occurrences(inv, item) == 0
    decreases |inv|
  {
    if inv != [] {
      OccursNever(inv[..|inv| - 1], item);
    }
  }

  /** Over distinct entries that cover every purchased item, the counts add
      up to the number of purchases. */
  lemma {:induction false} SumCountsCoverAll(ps: seq<Model.Purchase>, inv: seq<InventoryItem>)
    requires forall i, j :: 0 <= i < j < |inv| ==> inv[i].itemType != inv[j].itemType
    requires forall p :: p in ps ==> exists i :: 0 <= i < |inv| && inv[i].itemType == p.item
    ensures SumCounts(ps, inv) == |ps|
    decreases |ps|
  {
    if ps == [] {
      SumCountsEmpty(inv);
    } else {
      var front, last := ps[..|ps| - 1], ps[|ps| - 1];
      assert ps == front + [last];
      assert forall p :: p in front ==> p in ps;
      SumCountsCoverAll(front, inv);
      SumCountsStep(front, last, inv);
      OccursOnce(inv, last.item);
    }
  }

  lemma {:induction false} SumCountsEmpty(inv: seq<InventoryItem>)
    ensures SumCounts([], inv) == 0
    decreases |inv|
  {
    if inv != [] {
      SumCountsEmpty(inv[..|inv| - 1]);
    }
  }

  lemma {:induction false} QuantitiesAreCounts(ps: seq<Model.Purchase>, inv: seq<InventoryItem>)
    requires forall i :: 0 <= i < |inv| ==> inv[i].quantity == Count(ps, inv[i].itemType)
    ensures SumQuantities(inv) == SumCounts(ps, inv)
    decreases |inv|
  {
    if inv != [] {
      QuantitiesAreCounts(ps, inv[..|inv| - 1]);
    }
  }

  /** The quantities of an inventory sum to the number of purchases. */
  lemma InventoryTotal(inv: seq<InventoryItem>, ps: seq<Model.Purchase>)
    requires IsInventoryOf(inv, ps)
    ensures SumQuantities(inv) == |ps|
  {
    QuantitiesAreCounts(ps, inv);
    SumCountsCoverAll(ps, inv);
  }

  /** Two inventories of the same purchases hold the same entries, in
      whatever order: GetInfo's inventory is determined up to order. */
  lemma InventoriesAgree(a: seq<InventoryItem>, b: seq<InventoryItem>, ps: seq<Model.Purchase>)
    requires IsInventoryOf(a, ps) && IsInventoryOf(b, ps)
    ensures forall e :: e in a ==> e in b
  {
    forall e | e in a
      ensures e in b
    {
      var i :| 0 <= i < |a| && a[i] == e;
      var p :| p in ps && p.item == e.itemType;
      var j :| 0 <= j < |b| && b[j].itemType == p.item;
      assert b[j] == e;
    }
  }

  /** `counts` maps each purchased item to its number of purchases. */
  ghost predicate IsCountMap(counts: map<string, int>, ps: seq<Model.Purchase>) {
    && (forall k :: k in counts ==> counts[k] == Count(ps, k) > 0)
    && (forall k :: Count(ps, k) > 0 ==> k in counts)
  }

  lemma CountStep(ps: seq<Model.Purchase>, p: Model.Purchase, k: string)
    ensures Count(ps + [p], k) == Count(ps, k) + (if p.item == k then 1 else 0)
  {
    assert (ps + [p])[..|ps + [p]| - 1] == ps;
  }

  /** One more purchase adds one to its item's count and leaves the rest. */
  lemma CountMapStep(counts: map<string, int>, ps: seq<Model.Purchase>, p: Model.Purchase)
    requires IsCountMap(counts, ps)
    ensures IsCountMap(counts[p.item := (if p.item in counts then counts[p.item] else 0) + 1], ps + [p])
  {
    forall k
      ensures Count(ps + [p], k) == Count(ps, k) + (if p.item == k then 1 else 0)
    {
      CountStep(ps, p, k);
    }
  }

  /** The first loop of GetInfo: one increment per purchase. */
  method CountItems(ps: seq<Model.Purchase>) returns (counts: map<string, int>)
    ensures IsCountMap(counts, ps)
  {
    counts := map[];
    for i := 0 to |ps|
      invariant IsCountMap(counts, ps[..i])
    {
      assert ps[..i + 1] == ps[..i] + [ps[i]];
      CountMapStep(counts, ps[..i], ps[i]);
      var item := ps[i].item;
      counts := counts[item := (if item in counts then counts[item] else 0) + 1];
    }
    assert ps[..|ps|] == ps;
  }

  /** The second loop of GetInfo: one entry per key of the count map, in no
      particular order. */
  method ListCounts(counts: map<string, int>) returns (inv: seq<InventoryItem>)
    ensures forall i :: 0 <= i < |inv| ==> inv[i].itemType in counts && inv[i].quantity == counts[inv[i].itemType]
    ensures forall i, j :: 0 <= i < j < |inv| ==> inv[i].itemType != inv[j].itemType
    ensures forall k :: k in counts ==> exists i :: 0 <= i < |inv| && inv[i].itemType == k
  {
    var remaining := counts.Keys;
    inv := [];
    while remaining != {}
      invariant remaining <= counts.Keys
      invariant forall i :: 0 <= i < |inv| ==>
                  inv[i].itemType in counts && inv[i].itemType !in remaining && inv[i].quantity == counts[inv[i].itemType]
      invariant forall i, j :: 0 <= i < j < |inv| ==> inv[i].itemType != inv[j].itemType
      invariant forall k :: k in counts && k !in remaining ==> exists i :: 0 <= i < |inv| && inv[i].itemType == k
      decreases remaining
    {
      var item :| item in remaining;
      ghost var prev := inv;
      inv := inv + [InventoryItem(item, counts[item])];
      remaining := remaining - {item};
      assert forall i :: 0 <= i < |prev| ==> inv[i] == prev[i];
      assert inv[|prev|].itemType == item;
    }
  }

  /** Counts the purchases by item, then lists the counts: the result is an
      inventory of the purchases whose quantities sum to their number. */
  method BuildInventory(ps: seq<Model.Purchase>) returns (inv: seq<InventoryItem>)
    ensures IsInventoryOf(inv, ps)
    ensures SumQuantities(inv) == |ps|
  {
    var counts := CountItems(ps);
    inv := ListCounts(counts);
    forall p | p in ps
      ensures exists i :: 0 <= i < |inv| && inv[i].itemType == p.item
    {
      assert Count(ps, p.item) > 0;
    }
    InventoryTotal(inv, ps);
  }

  // ---------------------------------------------------------------- history

  /** Both history loops have one shape: each transaction gives zero or one
      entries, appended in the order of the query's rows. */
  function Collect<E>(txs: seq<Transaction>, entry: Transaction -> seq<E>): seq<E>
    decreases |txs|
  {
    if txs == [] then [] else Collect(txs[..|txs| - 1], entry) + entry(txs[|txs| - 1])
  }

  lemma CollectLast<E>(a: seq<Transaction>, t: Transaction, entry: Transaction -> seq<E>)
    ensures Collect(a + [t], entry) == Collect(a, entry) + entry(t)
  {
    assert (a + [t])[..|a + [t]| - 1] == a;
  }

  /** Collecting over a concatenation concatenates the results: each
      transaction is treated on its own and the order is kept. */
  lemma {:induction false} CollectAppend<E>(a: seq<Transaction>, b: seq<Transaction>, entry: Transaction -> seq<E>)
    ensures Collect(a + b, entry) == Collect(a, entry) + Collect(b, entry)
    decreases |b|
  {
    if b == [] {
      assert a + b == a;
    } else {
      var front, last := b[..|b| - 1], b[|b| - 1];
      assert b == front + [last];
      assert a + b == (a + front) + [last];
      CollectLast(a + front, last, entry);
      CollectAppend(a, front, entry);
      CollectLast(front, last, entry);
    }
  }

  lemma CollectSplit<E>(a: seq<Transaction>, t: Transaction, b: seq<Transaction>, entry: Transaction -> seq<E>)
    ensures Collect(a + [t] + b, entry) == Collect(a, entry) + entry(t) + Collect(b, entry)
  {
    CollectAppend(a + [t], b, entry);
    CollectLast(a, t, entry);
  }

  /** At most one entry per transaction gives at most one entry per row. */
  lemma {:induction false} CollectBound<E>(txs: seq<Transaction>, entry: Transaction -> seq<E>)
    requires forall t :: |entry(t)| <= 1
    ensures |Collect(txs, entry)| <= |txs|
    decreases |txs|
  {
    if txs != [] {
      CollectBound(txs[..|txs| - 1], entry);
    }
  }

  /** The received-history entry of one transaction: only a transaction with
      a source whose account resolves gives one. */
  function ReceivedEntry(s: State, faults: Faults, t: Transaction): (r: seq<CoinHistoryReceived>)
    ensures |r| <= 1
  {
    if t.fromUserId.Some? && LookupId(s, faults, t.fromUserId.value).Success? then
      [CoinHistoryReceived(LookupId(s, faults, t.fromUserId.value).value.username, t.amount)]
    else []
  }

  function ReceivedEntries(s: State, faults: Faults): Transaction -> seq<CoinHistoryReceived> {
    t => ReceivedEntry(s, faults, t)
  }

  /** The received history of `txs`: at most one entry per row, in their order. */
  function ReceivedHistory(s: State, faults: Faults, txs: seq<Transaction>): (r: seq<CoinHistoryReceived>)
    ensures |r| <= |txs|
  {
    CollectBound(txs, ReceivedEntries(s, faults));
    Collect(txs, ReceivedEntries(s, faults))
  }

  /** The sent-history entry of one transaction: given when the recipient
      resolves. */
  function SentEntry(s: State, faults: Faults, t: Transaction): (r: seq<CoinHistorySent>)
    ensures |r| <= 1
  {
    if LookupId(s, faults, t.toUserId).Success? then
      [CoinHistorySent(LookupId(s, faults, t.toUserId).value.username, t.amount)]
    else []
  }

  function SentEntries(s: State, faults: Faults): Transaction -> seq<CoinHistorySent> {
    t => SentEntry(s, faults, t)
  }

  /** The sent history of `txs`: at most one entry per row, in their order. */
  function SentHistory(s: State, faults: Faults, txs: seq<Transaction>): (r: seq<CoinHistorySent>)
    ensures |r| <= |txs|
  {
    CollectBound(txs, SentEntries(s, faults));
    Collect(txs, SentEntries(s, faults))
  }

  /** A transaction without a source (a purchase) never appears in the
      received history, though the received query returns it. */
  lemma SourcelessNeverReceived(s: State, faults: Faults, a: seq<Transaction>, t: Transaction, b: seq<Transaction>)
    requires t.fromUserId.None?
    ensures ReceivedHistory(s, faults, a + [t] + b) == ReceivedHistory(s, faults, a + b)
  {
    CollectSplit(a, t, b, ReceivedEntries(s, faults));
    CollectAppend(a, b, ReceivedEntries(s, faults));
  }

  /** A source that cannot be looked up is skipped, without failing. */
  lemma UnresolvedSenderSkipped(s: State, faults: Faults, a: seq<Transaction>, t: Transaction, b: seq<Transaction>)
    requires t.fromUserId.Some? && LookupId(s, faults, t.fromUserId.value).Failure?
    ensures ReceivedHistory(s, faults, a + [t] + b) == ReceivedHistory(s, faults, a + b)
  {
    CollectSplit(a, t, b, ReceivedEntries(s, faults));
    CollectAppend(a, b, ReceivedEntries(s, faults));
  }

  /** A transaction whose source resolves contributes, in its place, the
      source's username and the amount. */
  lemma ResolvedSenderListed(s: State, faults: Faults, a: seq<Transaction>, t: Transaction, b: seq<Transaction>,
                             sender: User)
    requires t.fromUserId.Some? && LookupId(s, faults, t.fromUserId.value) == Success(sender)
    ensures ReceivedHistory(s, faults, a + [t] + b)
              == ReceivedHistory(s, faults, a) + [CoinHistoryReceived(sender.username, t.amount)]
                 + ReceivedHistory(s, faults, b)
  {
    CollectSplit(a, t, b, ReceivedEntries(s, faults));
  }

  /** A recipient that cannot be looked up is skipped, without failing. */
  lemma UnresolvedRecipientSkipped(s: State, faults: Faults, a: seq<Transaction>, t: Transaction, b: seq<Transaction>)
    requires LookupId(s, faults, t.toUserId).Failure?
    ensures SentHistory(s, faults, a + [t] + b) == SentHistory(s, faults, a + b)
  {
    CollectSplit(a, t, b, SentEntries(s, faults));
    CollectAppend(a, b, SentEntries(s, faults));
  }

  /** A transaction whose recipient resolves contributes, in its place, the
      recipient's username and the amount. */
  lemma ResolvedRecipientListed(s: State, faults: Faults, a: seq<Transaction>, t: Transaction, b: seq<Transaction>,
                                recipient: User)
    requires LookupId(s, faults, t.toUserId) == Success(recipient)
    ensures SentHistory(s, faults, a + [t] + b)
              == SentHistory(s, faults, a) + [CoinHistorySent(recipient.username, t.amount)] + SentHistory(s, faults, b)
  {
    CollectSplit(a, t, b, SentEntries(s, faults));
  }

  /** The transfer records of `txs`. */
  function Transfers(txs: seq<Transaction>): (r: seq<Transaction>)
    ensures forall t :: t in r <==> t in txs && t.txType == TransferType
  {
    if txs == [] then []
    else Transfers(txs[..|txs| - 1]) + (if txs[|txs| - 1].txType == TransferType then [txs[|txs| - 1]] else [])
  }

  /** On well-formed records, skipping sourceless transactions is the same
      as keeping only transfers: received history lists transfers only. */
  lemma {:induction false} ReceivedHistoryIsOfTransfers(s: State, faults: Faults, txs: seq<Transaction>)
    requires forall i :: 0 <= i < |txs| ==> WellFormedTransaction(txs[i])
    ensures ReceivedHistory(s, faults, txs) == ReceivedHistory(s, faults, Transfers(txs))
    decreases |txs|
  {
    if txs != [] {
      var front, last := txs[..|txs| - 1], txs[|txs| - 1];
      var entries := ReceivedEntries(s, faults);
      ReceivedHistoryIsOfTransfers(s, faults, front);
      assert Collect(txs, entries) == Collect(front, entries) + entries(last);
      if last.txType == TransferType {
        assert Transfers(txs) == Transfers(front) + [last];
        CollectLast(Transfers(front), last, entries);
      } else {
        assert Transfers(txs) == Transfers(front);
        assert last.fromUserId.None?;
      }
    }
  }

  /** Walks the received transactions, resolving each source. */
  method CollectReceived(repo: Repository, txs: seq<Transaction>) returns (received: seq<CoinHistoryReceived>)
    ensures received == ReceivedHistory(repo.Snapshot(), repo.faults, txs)
  {
    received := [];
    for i := 0 to |txs|
      invariant received == ReceivedHistory(repo.Snapshot(), repo.faults, txs[..i])
    {
      assert txs[..i + 1] == txs[..i] + [txs[i]];
      CollectLast(txs[..i], txs[i], ReceivedEntries(repo.Snapshot(), repo.faults));
      var tx := txs[i];
      if tx.fromUserId.Some? {
        var sender := repo.GetUserById(tx.fromUserId.value);
        if sender.Failure? {
          continue;
        }
        received := received + [CoinHistoryReceived(sender.value.username, tx.amount)];
      }
    }
    assert txs[..|txs|] == txs;
  }

  /** Walks the sent transactions, resolving each recipient. */
  method CollectSent(repo: Repository, txs: seq<Transaction>) returns (sent: seq<CoinHistorySent>)
    ensures sent == SentHistory(repo.Snapshot(), repo.faults, txs)
  {
    sent := [];
    for i := 0 to |txs|
      invariant sent == SentHistory(repo.Snapshot(), repo.faults, txs[..i])
    {
      assert txs[..i + 1] == txs[..i] + [txs[i]];
      CollectLast(txs[..i], txs[i], SentEntries(repo.Snapshot(), repo.faults));
      var tx := txs[i];
      var recipient := repo.GetUserById(tx.toUserId);
      if recipient.Failure? {
        continue;
      }
      sent := sent + [CoinHistorySent(recipient.value.username, tx.amount)];
    }
    assert txs[..|txs|] == txs;
  }

  // ---------------------------------------------------------------- GetInfo

  /** The first failing step of GetInfo, if any: the account lookup, then the
      three queries, in the order the code makes them. */
  function InfoError(s: State, faults: Faults, userId: int): (r: Option<Error>)
    ensures r.None? <==>
              && ById(userId) !in faults && userId in s.users
              && PurchasesQuery(userId) !in faults && ReceivedQuery(userId) !in faults && SentQuery(userId) !in faults
    ensures ById(userId) in faults ==> r == Some(Transport(faults[ById(userId)]))
    ensures ById(userId) !in faults && userId !in s.users ==> r == Some(UserNotFound)
  {
    if LookupId(s, faults, userId).Failure? then Some(LookupId(s, faults, userId).error)
    else if PurchasesQuery(userId) in faults then Some(Transport(faults[PurchasesQuery(userId)]))
    else if ReceivedQuery(userId) in faults then Some(Transport(faults[ReceivedQuery(userId)]))
    else if SentQuery(userId) in faults then Some(Transport(faults[SentQuery(userId)]))
    else None
  }

  /** GetInfo reads the store and writes nothing (it has no modifies clause).
      It fails with the first failing step's error, "user not found" for an
      unknown id; otherwise it reports the stored balance, an inventory of the
      user's purchases whose quantities sum to their number, and the two
      histories. */
  method GetInfo(repo: Repository, userId: int) returns (r: Result<InfoResponse, Error>)
    ensures r.Failure? <==> InfoError(repo.Snapshot(), repo.faults, userId).Some?
    ensures r.Failure? ==> r.error == InfoError(repo.Snapshot(), repo.faults, userId).value
    ensures r.Success? ==>
      && userId in repo.users
      && r.value.coins == repo.users[userId].coins
      && IsInventoryOf(r.value.inventory, PurchasesByUser(repo.purchases, userId))
      && SumQuantities(r.value.inventory) == |PurchasesByUser(repo.purchases, userId)|
      && r.value.coinHistory.received
         == ReceivedHistory(repo.Snapshot(), repo.faults, TransactionsTo(repo.transactions, userId))
      && r.value.coinHistory.sent
         == SentHistory(repo.Snapshot(), repo.faults, TransactionsFrom(repo.transactions, userId))
  {
    var found := repo.GetUserById(userId);
    if found.Failure? {
      return Failure(found.error);
    }
    var user := found.value;

    var purchases := repo.GetPurchasesByUserId(userId);
    if purchases.Failure? {
      return Failure(purchases.error);
    }
    var inventory := BuildInventory(purchases.value);

    var receivedTxs := repo.GetTransactionsReceivedByUserId(userId);
    if receivedTxs.Failure? {
      return Failure(receivedTxs.error);
    }
    var received := CollectReceived(repo, receivedTxs.value);

    var sentTxs := repo.GetTransactionsSentByUserId(userId);
    if sentTxs.Failure? {
      return Failure(sentTxs.error);
    }
    var sent := CollectSent(repo, sentTxs.value);

    return Success(InfoResponse(user.coins, inventory, CoinHistory(received, sent)));
  }
}
