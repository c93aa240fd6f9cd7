/** The flow of the transfer test in integration/integration_test.go, on the
    model: two new users register and one sends 100 coins to the other. A cup
    purchase and the GetInfo histories are added after it. */
module Scenario {
  import opened Wrappers
  import opened Model
  import opened Store
  import opened Authentication
  import opened Transfer
  import opened Purchasing
  import opened Info

  const Sender := User(1, "senderUser", "senderPass", 1000)
  const Recipient := User(2, "recipientUser", "recipientPass", 1000)

  /** The store after both registrations. */
  const Registered := State(map[1 := Sender, 2 := Recipient], map["senderUser" := 1, "recipientUser" := 2], 3, [], [])

  /** The store after the transfer of 100. */
  const Transferred := Registered.(
    users := map[1 := Sender.(coins := 900), 2 := Recipient.(coins := 1100)],
    transactions := [Transaction(1, Some(1), 2, 100, TransferType)])

  /** The store after the sender buys a cup. */
  const Bought := Transferred.(
    users := map[1 := Sender.(coins := 880), 2 := Recipient.(coins := 1100)],
    purchases := [Model.Purchase(1, 1, "cup", 20)],
    transactions := Transferred.transactions + [Transaction(2, None, 1, 20, PurchaseType)])

  /** Two registrations on an empty store: ids 1 and 2, 1000 coins each. */
  lemma RegisterBoth()
    ensures var (r1, s1) := AuthSpec(Empty, map[], AuthRequest("senderUser", "senderPass"));
      var (r2, s2) := AuthSpec(s1, map[], AuthRequest("recipientUser", "recipientPass"));
      r1 == Success(Sender) && r2 == Success(Recipient) && s2 == Registered
  {
    RegisterUnknownUser(Empty, map[], AuthRequest("senderUser", "senderPass"));
    var s1 := AuthSpec(Empty, map[], AuthRequest("senderUser", "senderPass")).1;
    assert s1 == State(map[1 := Sender], map["senderUser" := 1], 2, [], []);
    assert !NameTaken(s1, "recipientUser");
    RegisterUnknownUser(s1, map[], AuthRequest("recipientUser", "recipientPass"));
  }

  /** The sender sends 100: 900 and 1100, one transfer record. */
  lemma SendHundred()
    ensures TransferSpec(Registered, map[], "senderUser", "recipientUser", 100) == (Pass, Transferred)
  {
    assert LookupName(Registered, map[], "senderUser") == Success(Sender);
    assert LookupName(Registered, map[], "recipientUser") == Success(Recipient);
    var s1 := Rewritten(Registered, Sender.(coins := 900));
    assert s1.users == map[1 := Sender.(coins := 900), 2 := Recipient];
    assert Updated(Registered, map[], Sender.(coins := 900)) == (Pass, s1);
    var s2 := Rewritten(s1, Recipient.(coins := 1100));
    assert s2.users == Transferred.users;
    assert Updated(s1, map[], Recipient.(coins := 1100)) == (Pass, s2);
    assert s2.(transactions := s2.transactions + [TransferRecord(Sender, Recipient, 100).(id := 1)]) == Transferred;
    assert AppendedTransaction(s2, map[], TransferRecord(Sender, Recipient, 100)) == (Pass, Transferred);
    assert TransferWrites(Registered, map[], Sender, Recipient, 100) == (Pass, Transferred);
  }

  /** The sender, now at 900, buys a cup for 20 and is left with 880. */
  lemma BuyCup()
    ensures PurchaseSpec(Transferred, map[], "senderUser", "cup") == (Pass, Bought)
  {
    assert LookupName(Transferred, map[], "senderUser") == Success(Sender.(coins := 900));
    BuyCupWrites();
  }

  lemma BuyCupWrites()
    ensures PurchaseWrites(Transferred, map[], Sender.(coins := 900), "cup", 20) == (Pass, Bought)
  {
    var buyer := Sender.(coins := 880);
    var s1 := Rewritten(Transferred, buyer);
    assert s1.users == Bought.users;
    assert Updated(Transferred, map[], buyer) == (Pass, s1);
    var s2 := s1.(purchases := [PurchaseRecord(buyer, "cup", 20).(id := 1)]);
    assert s1.purchases == [];
    assert s1.purchases + [PurchaseRecord(buyer, "cup", 20).(id := |s1.purchases| + 1)] == s2.purchases;
    assert AppendedPurchase(s1, map[], PurchaseRecord(buyer, "cup", 20)) == (Pass, s2);
    assert s2.(transactions := s2.transactions + [MintRecord(buyer, 20).(id := 2)]) == Bought;
  }

  /** The sender's rows, as the three queries return them. */
  lemma SenderQueries()
    ensures TransactionsTo(Bought.transactions, 1) == [Bought.transactions[1]]
    ensures TransactionsFrom(Bought.transactions, 1) == [Bought.transactions[0]]
    ensures PurchasesByUser(Bought.purchases, 1) == Bought.purchases
  {
    var ts := Bought.transactions;
    assert ts[..1] == [ts[0]] && ts[..1][..0] == [];
    assert TransactionsTo(ts[..1], 1) == [];
    assert TransactionsFrom(ts[..1], 1) == [ts[0]];
    assert Bought.purchases[..0] == [];
  }

  /** The recipient's transactions, as the two queries return them. */
  lemma RecipientQueries()
    ensures TransactionsTo(Bought.transactions, 2) == [Bought.transactions[0]]
    ensures TransactionsFrom(Bought.transactions, 2) == []
  {
    var ts := Bought.transactions;
    assert ts[..1] == [ts[0]] && ts[..1][..0] == [];
    assert TransactionsTo(ts[..1], 2) == [ts[0]];
    assert TransactionsFrom(ts[..1], 2) == [];
  }

  /** What GetInfo reports to the sender afterwards: one cup, nothing
      received (the purchase record has no source), 100 sent to
      "recipientUser". */
  lemma SenderInfoAfterwards()
    ensures Count(PurchasesByUser(Bought.purchases, 1), "cup") == 1
    ensures ReceivedHistory(Bought, map[], TransactionsTo(Bought.transactions, 1)) == []
    ensures SentHistory(Bought, map[], TransactionsFrom(Bought.transactions, 1)) == [CoinHistorySent("recipientUser", 100)]
  {
    SenderQueries();
    var t1, t2 := Bought.transactions[0], Bought.transactions[1];
    assert [t1][..0] == [] && [t2][..0] == [];
    assert Bought.purchases[..0] == [];
    assert ReceivedEntries(Bought, map[])(t2) == [];
    CollectLast([], t2, ReceivedEntries(Bought, map[]));
    assert [] + [t2] == [t2];
    assert LookupId(Bought, map[], 2).value.username == "recipientUser";
  }

  /** What GetInfo reports to the recipient afterwards: 100 received from
      "senderUser", nothing sent. */
  lemma RecipientInfoAfterwards()
    ensures ReceivedHistory(Bought, map[], TransactionsTo(Bought.transactions, 2)) == [CoinHistoryReceived("senderUser", 100)]
    ensures SentHistory(Bought, map[], TransactionsFrom(Bought.transactions, 2)) == []
  {
    RecipientQueries();
    var t1 := Bought.transactions[0];
    assert [t1][..0] == [];
    assert ReceivedEntries(Bought, map[])(t1) == [CoinHistoryReceived("senderUser", 100)];
    assert LookupId(Bought, map[], 1).value.username == "senderUser";
  }
}
