/** TransferCoins (internal/service/transfer.go): look up the sender, check the
    balance, look up the recipient, debit and credit the two copies, write both
    back, record the transfer. The writes are independent store calls with no
    rollback. */
module Transfer {
  import opened Wrappers
  import opened Model
  import opened Errors
  import opened Store
  import opened Ledger

  /** The record a transfer appends; the store assigns its id. */
  function TransferRecord(sender: User, recipient: User, amount: int): Transaction {
    Transaction(0, Some(sender.id), recipient.id, amount, TransferType)
  }

  /** The effect of TransferCoins on the store, call by call: the checks,
      then the writes. */
  function TransferSpec(s: State, faults: Faults, senderName: string, recipientName: string, amount: int)
    : (r: (Outcome<Error>, State))
    ensures SameAccounts(s, r.1) && r.1.purchases == s.purchases
    ensures r.0.Fail? ==> r.1.transactions == s.transactions
    ensures r.0.Pass? ==> |r.1.transactions| == |s.transactions| + 1
  {
    match LookupName(s, faults, senderName)
    case Failure(e) => (Fail(e), s)
    case Success(sender) =>
      if sender.coins < amount then (Fail(InsufficientCoins), s)
      else
        match LookupName(s, faults, recipientName)
        case Failure(e) => (Fail(e), s)
        case Success(recipient) => TransferWrites(s, faults, sender, recipient, amount)
  }

  /** The write phase. `sender` and `recipient` are the copies the two lookups
      returned, so the credit is computed on the recipient as it was read,
      before the sender's debit was written. Each write stops the sequence
      when it fails; nothing is undone. */
  function TransferWrites(s: State, faults: Faults, sender: User, recipient: User, amount: int)
    : (r: (Outcome<Error>, State))
    ensures SameAccounts(s, r.1) && r.1.purchases == s.purchases
    ensures r.0.Fail? ==> r.1.transactions == s.transactions
    ensures r.0.Pass? ==>
              r.1.transactions == s.transactions + [TransferRecord(sender, recipient, amount).(id := |s.transactions| + 1)]
  {
    var (out1, s1) := Updated(s, faults, sender.(coins := sender.coins - amount));
    if out1.Fail? then (out1, s1)
    else
      var (out2, s2) := Updated(s1, faults, recipient.(coins := recipient.coins + amount));
      if out2.Fail? then (out2, s2)
      else AppendedTransaction(s2, faults, TransferRecord(sender, recipient, amount))
  }

  /** None of the three writes of a transfer between these copies fails. */
  predicate WritesSucceed(faults: Faults, sender: User, recipient: User, amount: int) {
    && Update(sender.(coins := sender.coins - amount)) !in faults
    && Update(recipient.(coins := recipient.coins + amount)) !in faults
    && InsertTransaction(TransferRecord(sender, recipient, amount)) !in faults
  }

  method TransferCoins(repo: Repository, senderName: string, recipientName: string, amount: int)
    returns (r: Outcome<Error>)
    requires repo.Valid()
    modifies repo
    ensures repo.Valid()
    ensures (r, repo.Snapshot()) == TransferSpec(old(repo.Snapshot()), repo.faults, senderName, recipientName, amount)
  {
    var found := repo.GetUserByUsername(senderName);
    if found.Failure? {
      return Fail(found.error);
    }
    var sender := found.value;
    if sender.coins < amount {
      return Fail(InsufficientCoins);
    }
    found := repo.GetUserByUsername(recipientName);
    if found.Failure? {
      return Fail(found.error);
    }
    var recipient := found.value;
    var tx := TransferRecord(sender, recipient, amount);
    sender := sender.(coins := sender.coins - amount);
    recipient := recipient.(coins := recipient.coins + amount);
    r := repo.UpdateUser(sender);
    if r.Fail? {
      return;
    }
    r := repo.UpdateUser(recipient);
    if r.Fail? {
      return;
    }
    r := repo.CreateTransaction(tx);
  }

  /** The transfer succeeds exactly when both names resolve, the sender has at
      least `amount`, and none of the writes fails. */
  lemma TransferSucceedsIff(s: State, faults: Faults, senderName: string, recipientName: string, amount: int)
    ensures TransferSpec(s, faults, senderName, recipientName, amount).0.Pass? <==>
              && LookupName(s, faults, senderName).Success?
              && LookupName(s, faults, senderName).value.coins >= amount
              && LookupName(s, faults, recipientName).Success?
              && WritesSucceed(faults, LookupName(s, faults, senderName).value,
                               LookupName(s, faults, recipientName).value, amount)
  {
  }

  /** A successful transfer between two different accounts debits the sender
      and credits the recipient by `amount`, leaves every other account alone,
      appends exactly one transfer record and conserves the total. */
  lemma TransferMovesCoins(s: State, faults: Faults, senderName: string, recipientName: string, amount: int,
                           sender: User, recipient: User)
    requires WellFormed(s)
    requires LookupName(s, faults, senderName) == Success(sender)
    requires LookupName(s, faults, recipientName) == Success(recipient)
    requires sender.id != recipient.id
    requires TransferSpec(s, faults, senderName, recipientName, amount).0.Pass?
    ensures var t := TransferSpec(s, faults, senderName, recipientName, amount).1;
      && t.users.Keys == s.users.Keys
      && t.users[sender.id].coins == s.users[sender.id].coins - amount
      && t.users[recipient.id].coins == s.users[recipient.id].coins + amount
      && (forall id :: id in s.users && id != sender.id && id != recipient.id ==> t.users[id] == s.users[id])
      && t.transactions == s.transactions
                           + [Transaction(|s.transactions| + 1, Some(sender.id), recipient.id, amount, TransferType)]
      && t.purchases == s.purchases
      && TotalCoins(t.users) == TotalCoins(s.users)
  {
    var s1 := Updated(s, faults, sender.(coins := sender.coins - amount)).1;
    var s2 := Updated(s1, faults, recipient.(coins := recipient.coins + amount)).1;
    ChangeOneBalance(s.users, sender.id, s1.users[sender.id]);
    assert s1.users == s.users[sender.id := s1.users[sender.id]];
    ChangeOneBalance(s1.users, recipient.id, s2.users[recipient.id]);
    assert s2.users == s1.users[recipient.id := s2.users[recipient.id]];
  }

  /** With too few coins the transfer reports "insufficient coins" and changes
      nothing, whether or not the recipient exists. */
  lemma TransferInsufficientCoins(s: State, faults: Faults, senderName: string, recipientName: string, amount: int,
                                  sender: User)
    requires LookupName(s, faults, senderName) == Success(sender)
    requires sender.coins < amount
    ensures TransferSpec(s, faults, senderName, recipientName, amount) == (Fail(InsufficientCoins), s)
  {
  }

  /** An unknown recipient is reported as "user not found" before any write,
      so the sender is never debited. */
  lemma TransferRecipientNotFound(s: State, faults: Faults, senderName: string, recipientName: string, amount: int,
                                  sender: User)
    requires WellFormed(s)
    requires LookupName(s, faults, senderName) == Success(sender)
    requires sender.coins >= amount
    requires ByUsername(recipientName) !in faults && !NameTaken(s, recipientName)
    ensures TransferSpec(s, faults, senderName, recipientName, amount) == (Fail(UserNotFound), s)
  {
  }

  /** A failed sender lookup is returned as it is, and nothing changes. */
  lemma TransferSenderLookupFails(s: State, faults: Faults, senderName: string, recipientName: string, amount: int)
    requires LookupName(s, faults, senderName).Failure?
    ensures TransferSpec(s, faults, senderName, recipientName, amount)
              == (Fail(LookupName(s, faults, senderName).error), s)
  {
  }

  /** The store changes only after every check has passed: both names
      resolved and the balance covers the amount. */
  lemma TransferChecksBeforeWrites(s: State, faults: Faults, senderName: string, recipientName: string, amount: int)
    requires TransferSpec(s, faults, senderName, recipientName, amount).1 != s
    ensures LookupName(s, faults, senderName).Success?
    ensures LookupName(s, faults, senderName).value.coins >= amount
    ensures LookupName(s, faults, recipientName).Success?
  {
  }

  /** No atomicity: if the credit write fails after the debit was written,
      the sender has lost `amount`, the recipient has gained nothing and no
      record is appended. */
  lemma TransferCreditWriteFails(s: State, faults: Faults, senderName: string, recipientName: string, amount: int,
                                 sender: User, recipient: User)
    requires WellFormed(s)
    requires LookupName(s, faults, senderName) == Success(sender)
    requires LookupName(s, faults, recipientName) == Success(recipient)
    requires sender.id != recipient.id && sender.coins >= amount
    requires Update(sender.(coins := sender.coins - amount)) !in faults
    requires Update(recipient.(coins := recipient.coins + amount)) in faults
    ensures var (r, t) := TransferSpec(s, faults, senderName, recipientName, amount);
      && r.Fail?
      && t.users[sender.id].coins == sender.coins - amount
      && t.users[recipient.id] == recipient
      && t.transactions == s.transactions
      && TotalCoins(t.users) == TotalCoins(s.users) - amount
  {
    var s1 := Updated(s, faults, sender.(coins := sender.coins - amount)).1;
    ChangeOneBalance(s.users, sender.id, s1.users[sender.id]);
    assert s1.users == s.users[sender.id := s1.users[sender.id]];
  }

  /** A self-transfer is a lost update: both copies are read with the same
      balance, the credited copy is written last, so the account ends with
      `amount` more coins than it started with and the total grows. */
  lemma SelfTransferMints(s: State, faults: Faults, name: string, amount: int, user: User)
    requires WellFormed(s)
    requires LookupName(s, faults, name) == Success(user)
    requires user.coins >= amount
    requires WritesSucceed(faults, user, user, amount)
    ensures var (r, t) := TransferSpec(s, faults, name, name, amount);
      && r.Pass?
      && t.users[user.id].coins == user.coins + amount
      && t.transactions == s.transactions + [Transaction(|s.transactions| + 1, Some(user.id), user.id, amount, TransferType)]
      && TotalCoins(t.users) == TotalCoins(s.users) + amount
  {
    var s1 := Updated(s, faults, user.(coins := user.coins - amount)).1;
    var s2 := Updated(s1, faults, user.(coins := user.coins + amount)).1;
    assert s2.users == s.users[user.id := s2.users[user.id]];
    ChangeOneBalance(s.users, user.id, s2.users[user.id]);
  }

  /** Alice (id 1, 1000 coins) sends 100 to herself and ends with 1100. */
  lemma SelfTransferExample()
    ensures var alice := User(1, "alice", "pw", 1000);
      var s := State(map[1 := alice], map["alice" := 1], 2, [], []);
      TransferSpec(s, map[], "alice", "alice", 100).1.users[1].coins == 1100
  {
    var alice := User(1, "alice", "pw", 1000);
    var s := State(map[1 := alice], map["alice" := 1], 2, [], []);
    SelfTransferMints(s, map[], "alice", 100, alice);
  }

  /** Every outcome of a positive transfer, complete or cut short by a failed
      write, keeps the ledger consistent; in particular the debited sender
      stays non-negative. */
  lemma TransferPreservesInvariant(s: State, faults: Faults, senderName: string, recipientName: string, amount: int)
    requires LedgerInvariant(s)
    requires amount > 0
    ensures LedgerInvariant(TransferSpec(s, faults, senderName, recipientName, amount).1)
  {
    if LookupName(s, faults, senderName).Success? && LookupName(s, faults, recipientName).Success? {
      var sender := LookupName(s, faults, senderName).value;
      if sender.coins >= amount {
        WritesPreserveInvariant(s, faults, sender, LookupName(s, faults, recipientName).value, amount);
      }
    }
  }

  lemma WritesPreserveInvariant(s: State, faults: Faults, sender: User, recipient: User, amount: int)
    requires LedgerInvariant(s)
    requires amount > 0
    requires sender.id in s.users && s.users[sender.id] == sender && sender.coins >= amount
    requires recipient.id in s.users && s.users[recipient.id] == recipient
    ensures LedgerInvariant(TransferWrites(s, faults, sender, recipient, amount).1)
  {
    var debited := sender.(coins := sender.coins - amount);
    var credited := recipient.(coins := recipient.coins + amount);
    var s1 := Rewritten(s, debited);
    RewriteKeepsInvariant(s, debited);
    RewrittenChangesOneRow(s, debited);
    if Update(debited) in faults {
      assert TransferWrites(s, faults, sender, recipient, amount).1 == s;
    } else {
      var s2 := Rewritten(s1, credited);
      RewriteKeepsInvariant(s1, credited);
      RewrittenChangesOneRow(s1, credited);
      if Update(credited) in faults {
        assert TransferWrites(s, faults, sender, recipient, amount).1 == s1;
      } else {
        var record := TransferRecord(sender, recipient, amount);
        assert TransferWrites(s, faults, sender, recipient, amount).1 == AppendedTransaction(s2, faults, record).1;
        AppendTransactionKeepsInvariant(s2, record);
      }
    }
  }

  /** The evidently intended transfer: when both names resolve to the same
      account the credit is applied to the debited record (the behaviour of
      the in-memory fake, whose lookups share one object). */
  function CorrectedTransferSpec(s: State, faults: Faults, senderName: string, recipientName: string, amount: int)
    : (r: (Outcome<Error>, State))
    ensures SameAccounts(s, r.1) && r.1.purchases == s.purchases
    ensures r.0.Fail? ==> r.1.transactions == s.transactions
    ensures r.0.Pass? ==> |r.1.transactions| == |s.transactions| + 1
  {
    match LookupName(s, faults, senderName)
    case Failure(e) => (Fail(e), s)
    case Success(sender) =>
      if sender.coins < amount then (Fail(InsufficientCoins), s)
      else
        match LookupName(s, faults, recipientName)
        case Failure(e) => (Fail(e), s)
        case Success(recipient) =>
          var debited := sender.(coins := sender.coins - amount);
          var credited := if recipient.id == sender.id then debited.(coins := debited.coins + amount)
                          else recipient.(coins := recipient.coins + amount);
          var (out1, s1) := Updated(s, faults, debited);
          if out1.Fail? then (out1, s1)
          else
            var (out2, s2) := Updated(s1, faults, credited);
            if out2.Fail? then (out2, s2)
            else AppendedTransaction(s2, faults, TransferRecord(sender, recipient, amount))
  }

  /** The corrected transfer conserves the total whenever it succeeds,
      self-transfers included. */
  lemma CorrectedTransferConserves(s: State, faults: Faults, senderName: string, recipientName: string, amount: int)
    requires WellFormed(s)
    requires CorrectedTransferSpec(s, faults, senderName, recipientName, amount).0.Pass?
    ensures TotalCoins(CorrectedTransferSpec(s, faults, senderName, recipientName, amount).1.users) == TotalCoins(s.users)
  {
    var sender := LookupName(s, faults, senderName).value;
    var recipient := LookupName(s, faults, recipientName).value;
    var debited := sender.(coins := sender.coins - amount);
    var credited := if recipient.id == sender.id then debited.(coins := debited.coins + amount)
                    else recipient.(coins := recipient.coins + amount);
    var s1 := Updated(s, faults, debited).1;
    var s2 := Updated(s1, faults, credited).1;
    ChangeOneBalance(s.users, sender.id, s1.users[sender.id]);
    assert s1.users == s.users[sender.id := s1.users[sender.id]];
    ChangeOneBalance(s1.users, recipient.id, s2.users[recipient.id]);
    assert s2.users == s1.users[recipient.id := s2.users[recipient.id]];
  }

  /** Between two different accounts the correction changes nothing. */
  lemma CorrectedAgreesOnDistinctAccounts(s: State, faults: Faults, senderName: string, recipientName: string,
                                          amount: int)
    requires WellFormed(s)
    requires LookupName(s, faults, senderName).Success? && LookupName(s, faults, recipientName).Success?
    requires LookupName(s, faults, senderName).value.id != LookupName(s, faults, recipientName).value.id
    ensures CorrectedTransferSpec(s, faults, senderName, recipientName, amount)
              == TransferSpec(s, faults, senderName, recipientName, amount)
  {
  }
}
