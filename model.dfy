/** The records of internal/model/models.go. Timestamps (`CreatedAt`) are not
    modelled; Go's int64 ids and int amounts are unbounded integers here. */
module Model {
  import opened Wrappers

  /** An account: identity, unique username, plaintext password, coin balance. */
  datatype User = User(id: int, username: string, password: string, coins: int)

  /** One coin movement. `fromUserId` is a pointer in Go: absent for purchases
      (coins leave circulation), present for transfers. `toUserId` is always present. */
  datatype Transaction = Transaction(
    id: int,
    fromUserId: Option<int>,
    toUserId: int,
    amount: int,
    txType: string)

  /** One item acquisition, with the price paid at the time. */
  datatype Purchase = Purchase(id: int, userId: int, item: string, price: int)

  datatype InventoryItem = InventoryItem(itemType: string, quantity: int)

  datatype CoinHistoryReceived = CoinHistoryReceived(fromUser: string, amount: int)

  datatype CoinHistorySent = CoinHistorySent(toUser: string, amount: int)

  datatype CoinHistory = CoinHistory(received: seq<CoinHistoryReceived>, sent: seq<CoinHistorySent>)

  datatype InfoResponse = InfoResponse(coins: int, inventory: seq<InventoryItem>, coinHistory: CoinHistory)

  datatype AuthRequest = AuthRequest(username: string, password: string)

  datatype SendCoinRequest = SendCoinRequest(toUser: string, amount: int)

  /** The two values the `Type` column takes. */
  const TransferType: string := "transfer"
  const PurchaseType: string := "purchase"

  /** The shape every recorded transaction is meant to have: a transfer names
      both endpoints, a purchase has no source, and the amount is positive. */
  predicate WellFormedTransaction(t: Transaction) {
    && t.amount > 0
    && (t.txType == TransferType || t.txType == PurchaseType)
    && (t.txType == TransferType ==> t.fromUserId.Some?)
    && (t.txType == PurchaseType ==> t.fromUserId.None?)
  }
}
