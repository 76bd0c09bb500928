/** The append-only transaction log with idempotency keys, and what every posting keeps. */
module Ledger {
  import opened Domain

  function FindKey(ledger: seq<Entry>, key: Key): (r: Option<TxId>)
    ensures r.Some? ==> r.value < |ledger| && ledger[r.value].key == Some(key)
    ensures r.None? ==> forall i :: 0 <= i < |ledger| ==> ledger[i].key != Some(key)
  {
    if |ledger| == 0 then None
    else
      var last := |ledger| - 1;
      var earlier := FindKey(ledger[..last], key);
      if earlier.Some? then earlier
      else if ledger[last].key == Some(key) then Some(last) else None
  }

  function WalletOf(wallets: map<UserId, Wallet>, user: UserId): Wallet {
    if user in wallets then wallets[user] else Wallet(0, Active, None)
  }

  predicate ShouldResetExpiry(tx: TxType, amount: int) {
    0 < amount && tx in {OrderCashback, ReferralReward, RefundToWallet, ManualCredit}
  }

  datatype Posting = Posting(db: Db, id: TxId)

  predicate Replayed(db: Db, key: Option<Key>) {
    key.Some? && FindKey(db.ledger, key.value).Some?
  }

  /** createTransactionWithManager on a non-zero amount: a known key returns the entry it named. */
  function Post(db: Db, user: UserId, tx: TxType, amount: int, order: Option<OrderId>, key: Option<Key>): (r: Posting)
    requires amount != 0
    ensures r.db == db.(wallets := r.db.wallets, ledger := r.db.ledger) && db.ledger <= r.db.ledger
  {
    if Replayed(db, key) then
      Posting(db, FindKey(db.ledger, key.value).value)
    else
      var wallet := WalletOf(db.wallets, user);
      var balance := wallet.balance + amount;
      var expiresAt := if ShouldResetExpiry(tx, amount) then Some(db.now + EXU_EXPIRY) else wallet.expiresAt;
      var entry := Entry(user, tx, amount, balance, order, key);
      Posting(db.(wallets := db.wallets[user := wallet.(balance := balance, expiresAt := expiresAt)],
                  ledger := db.ledger + [entry]),
              |db.ledger|)
  }

  // ----- the ledger is the balance -----

  function Total(ledger: seq<Entry>, user: UserId): int {
    if |ledger| == 0 then 0
    else
      var last := |ledger| - 1;
      Total(ledger[..last], user) + if ledger[last].user == user then ledger[last].amount else 0
  }

  lemma TotalAppend(ledger: seq<Entry>, e: Entry, user: UserId)
    ensures Total(ledger + [e], user) == Total(ledger, user) + if e.user == user then e.amount else 0
  {
    assert (ledger + [e])[..|ledger|] == ledger;
  }

  predicate KeysDistinct(ledger: seq<Entry>) {
    forall i, j :: 0 <= i < j < |ledger| && ledger[i].key.Some? ==> ledger[i].key != ledger[j].key
  }

  predicate RunningBalances(ledger: seq<Entry>) {
    forall i :: 0 <= i < |ledger| ==> ledger[i].balanceAfter == Total(ledger[..i + 1], ledger[i].user)
  }

  ghost predicate BalancesAreTotals(wallets: map<UserId, Wallet>, ledger: seq<Entry>) {
    forall user: UserId :: Total(ledger, user) == WalletOf(wallets, user).balance
  }

  ghost predicate LedgerOk(wallets: map<UserId, Wallet>, ledger: seq<Entry>) {
    && BalancesAreTotals(wallets, ledger)
    && RunningBalances(ledger)
    && KeysDistinct(ledger)
  }

  lemma AppendKeepsRunning(ledger: seq<Entry>, e: Entry)
    requires RunningBalances(ledger) && e.balanceAfter == Total(ledger, e.user) + e.amount
    ensures RunningBalances(ledger + [e])
  {
    var after := ledger + [e];
    forall i | 0 <= i < |after| ensures after[i].balanceAfter == Total(after[..i + 1], after[i].user) {
      if i < |ledger| {
        assert after[..i + 1] == ledger[..i + 1];
      } else {
        assert after[..i + 1] == after;
        TotalAppend(ledger, e, e.user);
      }
    }
  }

  lemma AppendKeepsKeys(ledger: seq<Entry>, e: Entry)
    requires KeysDistinct(ledger) && (e.key.Some? ==> FindKey(ledger, e.key.value).None?)
    ensures KeysDistinct(ledger + [e])
  {
  }

  lemma PostKeepsLedger(db: Db, user: UserId, tx: TxType, amount: int, order: Option<OrderId>, key: Option<Key>)
    requires amount != 0
    requires LedgerOk(db.wallets, db.ledger)
    ensures var after := Post(db, user, tx, amount, order, key).db;
            LedgerOk(after.wallets, after.ledger)
  {
    hide Total, FindKey, KeysDistinct, RunningBalances;
    var after := Post(db, user, tx, amount, order, key).db;
    if !Replayed(db, key) {
      var e := after.ledger[|db.ledger|];
      assert after.ledger == db.ledger + [e];
      forall u: UserId ensures Total(after.ledger, u) == WalletOf(after.wallets, u).balance {
        TotalAppend(db.ledger, e, u);
      }
      AppendKeepsRunning(db.ledger, e);
      AppendKeepsKeys(db.ledger, e);
    }
  }

  /** Repeating a keyed posting, whatever its other arguments, changes nothing and names the same entry. */
  lemma ReplayChangesNothing(db: Db, user: UserId, tx: TxType, amount: int, order: Option<OrderId>, key: Key,
                             user': UserId, tx': TxType, amount': int, order': Option<OrderId>)
    requires amount != 0 && amount' != 0
    requires KeysDistinct(db.ledger)
    ensures var once := Post(db, user, tx, amount, order, Some(key));
            && once.id < |once.db.ledger| && once.db.ledger[once.id].key == Some(key)
            && Post(once.db, user', tx', amount', order', Some(key)) == once
  {
    var once := Post(db, user, tx, amount, order, Some(key));
    if !Replayed(db, Some(key)) {
      FindKeyAppend(db.ledger, once.db.ledger[|db.ledger|], key);
    }
  }

  lemma FindKeyAppend(ledger: seq<Entry>, e: Entry, key: Key)
    ensures FindKey(ledger + [e], key) ==
            if FindKey(ledger, key).Some? then FindKey(ledger, key)
            else if e.key == Some(key) then Some(|ledger|) else None
  {
    assert (ledger + [e])[..|ledger|] == ledger;
  }

  // ----- the expiry job is never blocked by its own key -----

  /** A used expiry key lies in the past, and a wallet still showing that expiry has nothing left;
      a wallet with money always shows an expiry. */
  ghost predicate ExpiryOk(wallets: map<UserId, Wallet>, ledger: seq<Entry>, now: Millis) {
    && (forall i :: 0 <= i < |ledger| && ledger[i].key.Some? && ledger[i].key.value.ExpiryKey? ==>
          ExpiryKeyOk(wallets, ledger[i].key.value, now))
    && (forall u :: u in wallets && 0 < wallets[u].balance ==> wallets[u].expiresAt.Some?)
  }

  predicate ExpiryKeyOk(wallets: map<UserId, Wallet>, key: Key, now: Millis)
    requires key.ExpiryKey?
  {
    && key.at.Some?
    && key.at.value < now
    && key.user in wallets
    && (wallets[key.user].expiresAt == key.at ==> wallets[key.user].balance <= 0)
  }

  /** The postings the service makes: a credit that restarts the 365 days, a debit, or one leaving no credit. */
  predicate Expirable(db: Db, user: UserId, tx: TxType, amount: int, key: Option<Key>) {
    var wallet := WalletOf(db.wallets, user);
    && (ShouldResetExpiry(tx, amount) || amount < 0 || wallet.balance + amount <= 0)
    && (key.Some? && key.value.ExpiryKey? ==>
          && key.value.user == user
          && key.value.at == wallet.expiresAt
          && wallet.expiresAt.Some? && wallet.expiresAt.value < db.now
          && !ShouldResetExpiry(tx, amount)
          && wallet.balance + amount <= 0)
  }

  lemma PostKeepsExpiry(db: Db, user: UserId, tx: TxType, amount: int, order: Option<OrderId>, key: Option<Key>)
    requires amount != 0
    requires ExpiryOk(db.wallets, db.ledger, db.now)
    requires Expirable(db, user, tx, amount, key)
    ensures var after := Post(db, user, tx, amount, order, key).db;
            ExpiryOk(after.wallets, after.ledger, after.now)
  {
  }

  /** What a posting that is no replay must satisfy: money left without a new expiry already shows one whose key is
      unused, and an expiry key is used for a past instant at which its wallet, after the posting, holds no money. */
  predicate KeepsExpiry(db: Db, user: UserId, tx: TxType, amount: int, key: Option<Key>) {
    var wallet := WalletOf(db.wallets, user);
    var balance := wallet.balance + amount;
    var expiresAt := if ShouldResetExpiry(tx, amount) then Some(db.now + EXU_EXPIRY) else wallet.expiresAt;
    && (0 < balance && !ShouldResetExpiry(tx, amount) ==>
          expiresAt.Some? && FindKey(db.ledger, ExpiryKey(user, expiresAt)).None?)
    && (key.Some? && key.value.ExpiryKey? ==>
          var at := key.value.at;
          && at.Some? && at.value < db.now
          && if key.value.user == user then expiresAt == at ==> balance <= 0
             else key.value.user in db.wallets
                  && (db.wallets[key.value.user].expiresAt == at ==> db.wallets[key.value.user].balance <= 0))
  }

  lemma SafePostKeepsExpiry(db: Db, user: UserId, tx: TxType, amount: int, order: Option<OrderId>, key: Option<Key>)
    requires amount != 0 && !Replayed(db, key)
    requires ExpiryOk(db.wallets, db.ledger, db.now) && KeepsExpiry(db, user, tx, amount, key)
    ensures var after := Post(db, user, tx, amount, order, key).db;
            ExpiryOk(after.wallets, after.ledger, after.now)
  {
    hide FindKey;
  }

  lemma KeptExpiryIsSafe(db: Db, user: UserId, tx: TxType, amount: int, order: Option<OrderId>, key: Option<Key>)
    requires amount != 0 && !Replayed(db, key)
    requires var after := Post(db, user, tx, amount, order, key).db;
             ExpiryOk(after.wallets, after.ledger, after.now)
    ensures KeepsExpiry(db, user, tx, amount, key)
  {
    hide FindKey;
    var after := Post(db, user, tx, amount, order, key).db;
    var i := |db.ledger|;
    assert i < |after.ledger| && after.ledger[i].key == key;
    if key.Some? && key.value.ExpiryKey? {
      assert ExpiryKeyOk(after.wallets, after.ledger[i].key.value, after.now);
    }
    var row := WalletOf(db.wallets, user);
    var current := ExpiryKey(user, row.expiresAt);
    var used := FindKey(db.ledger, current);
    if used.Some? {
      assert after.ledger[used.value] == db.ledger[used.value];
      assert ExpiryKeyOk(after.wallets, current, after.now);
    }
    assert user in after.wallets && after.wallets[user].balance == row.balance + amount;
    if 0 < row.balance + amount && !ShouldResetExpiry(tx, amount) {
      assert after.wallets[user].expiresAt == row.expiresAt;
      assert row.expiresAt.Some? && used.None?;
    }
  }

  /** Exactly these postings keep the expiry job unblocked, of all that createTransactionWithManager accepts. */
  lemma PostKeepsExpiryIff(db: Db, user: UserId, tx: TxType, amount: int, order: Option<OrderId>, key: Option<Key>)
    requires amount != 0
    requires ExpiryOk(db.wallets, db.ledger, db.now)
    ensures var after := Post(db, user, tx, amount, order, key).db;
            ExpiryOk(after.wallets, after.ledger, after.now)
            <==> (Replayed(db, key) || KeepsExpiry(db, user, tx, amount, key))
  {
    hide ExpiryOk, KeepsExpiry, FindKey;
    if !Replayed(db, key) {
      var after := Post(db, user, tx, amount, order, key).db;
      if KeepsExpiry(db, user, tx, amount, key) {
        SafePostKeepsExpiry(db, user, tx, amount, order, key);
      } else if ExpiryOk(after.wallets, after.ledger, after.now) {
        KeptExpiryIsSafe(db, user, tx, amount, order, key);
      }
    }
  }
}
