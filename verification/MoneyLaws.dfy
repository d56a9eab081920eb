/** What every transaction keeps: a balanced ledger, covered holds, consistent rows. */
module MoneyLaws {
  import opened Options
  import opened Sums
  import opened Ledger
  import opened Money

  // Holds.

  function HoldWeight(w: Withdrawal, account: string, asset: string): int {
    if w.account == account && w.asset == asset && !Terminal(w.status) then w.amount else 0
  }

  function HoldWeights(withdrawals: seq<Withdrawal>, account: string, asset: string): (weights: seq<int>)
    ensures |weights| == |withdrawals|
    ensures forall i | 0 <= i < |withdrawals| :: weights[i] == HoldWeight(withdrawals[i], account, asset)
  {
    seq(|withdrawals|, i requires 0 <= i < |withdrawals| => HoldWeight(withdrawals[i], account, asset))
  }

  function EscrowWeight(t: P2PTrade, account: string, asset: string): int {
    if t.sellerAccount == account && t.asset == asset && Escrowed(t.status) then t.amount else 0
  }

  function EscrowWeights(trades: seq<P2PTrade>, account: string, asset: string): (weights: seq<int>)
    ensures |weights| == |trades|
    ensures forall i | 0 <= i < |trades| :: weights[i] == EscrowWeight(trades[i], account, asset)
  {
    seq(|trades|, i requires 0 <= i < |trades| => EscrowWeight(trades[i], account, asset))
  }

  /** The share of a held balance that trading orders account for. */
  function TradingHeld(journals: seq<Journal>, account: string, asset: string): int {
    if journals == [] then 0
    else
      var last := journals[|journals| - 1];
      TradingHeld(journals[..|journals| - 1], account, asset)
      + if last.source.Trading? then Effect(last.postings, account, asset, Held) else 0
  }

  /** Open withdrawals and escrowed sales of one account and asset. */
  function Claims(db: DB, account: string, asset: string): int {
    Sum(HoldWeights(db.withdrawals, account, asset)) + Sum(EscrowWeights(db.trades, account, asset))
  }

  /** Each held balance is exactly what its open withdrawals, its escrowed sales and trading account for. */
  ghost predicate HoldsOk(db: DB) {
    forall account: string, asset: string ::
      && TradingHeld(db.journals, account, asset) >= 0
      && Balance(db.journals, account, asset, Held)
        == Claims(db, account, asset) + TradingHeld(db.journals, account, asset)
  }

  /** Every journal balances, and no customer's available balance is negative. */
  ghost predicate LedgerOk(k: World, db: DB) {
    && AllBalanced(db.journals)
    && forall account: string, asset: string :: k.owner(account).Some? ==>
      Balance(db.journals, account, asset, Available) >= 0
  }

  lemma TradingSnoc(journals: seq<Journal>, j: Journal, account: string, asset: string)
    ensures TradingHeld(journals + [j], account, asset)
         == TradingHeld(journals, account, asset) + if j.source.Trading? then Effect(j.postings, account, asset, Held)
           else 0
  {
  }

  lemma AllBalancedSnoc(journals: seq<Journal>, j: Journal)
    requires AllBalanced(journals) && Balanced(j.postings)
    ensures AllBalanced(journals + [j])
  {
  }

  lemma HoldsSet(withdrawals: seq<Withdrawal>, id: nat, w: Withdrawal, account: string, asset: string)
    requires id < |withdrawals|
    ensures Sum(HoldWeights(withdrawals[id := w], account, asset))
         == Sum(HoldWeights(withdrawals, account, asset)) - HoldWeight(withdrawals[id], account, asset)
           + HoldWeight(w, account, asset)
  {
    var weights := HoldWeights(withdrawals, account, asset);
    assert HoldWeights(withdrawals[id := w], account, asset) == weights[id := HoldWeight(w, account, asset)];
    SumUpdate(weights, id, HoldWeight(w, account, asset));
  }

  lemma HoldsAdd(withdrawals: seq<Withdrawal>, w: Withdrawal, account: string, asset: string)
    ensures Sum(HoldWeights(withdrawals + [w], account, asset))
         == Sum(HoldWeights(withdrawals, account, asset)) + HoldWeight(w, account, asset)
  {
    assert HoldWeights(withdrawals + [w], account, asset)
      == HoldWeights(withdrawals, account, asset) + [HoldWeight(w, account, asset)];
    SumSnoc(HoldWeights(withdrawals, account, asset), HoldWeight(w, account, asset));
  }

  lemma EscrowSet(trades: seq<P2PTrade>, id: nat, t: P2PTrade, account: string, asset: string)
    requires id < |trades|
    ensures Sum(EscrowWeights(trades[id := t], account, asset))
         == Sum(EscrowWeights(trades, account, asset)) - EscrowWeight(trades[id], account, asset)
           + EscrowWeight(t, account, asset)
  {
    var weights := EscrowWeights(trades, account, asset);
    assert EscrowWeights(trades[id := t], account, asset) == weights[id := EscrowWeight(t, account, asset)];
    SumUpdate(weights, id, EscrowWeight(t, account, asset));
  }

  lemma EscrowAdd(trades: seq<P2PTrade>, t: P2PTrade, account: string, asset: string)
    ensures Sum(EscrowWeights(trades + [t], account, asset))
         == Sum(EscrowWeights(trades, account, asset)) + EscrowWeight(t, account, asset)
  {
    assert EscrowWeights(trades + [t], account, asset)
      == EscrowWeights(trades, account, asset) + [EscrowWeight(t, account, asset)];
    SumSnoc(EscrowWeights(trades, account, asset), EscrowWeight(t, account, asset));
  }

  // Moving money.

  /** What a move adds to one balance. */
  function Shift(asset: string, amount: nat, from: string, fromBucket: Bucket, to: string, toBucket: Bucket,
                 account: string, a: string, bucket: Bucket): int {
    (if a == asset && account == to && bucket == toBucket then amount else 0)
    - (if a == asset && account == from && bucket == fromBucket then amount else 0)
  }

  lemma PostMove(journals: seq<Journal>, source: Source, asset: string, amount: nat, from: string, fromBucket: Bucket,
                 to: string, toBucket: Bucket, account: string, a: string)
    requires !source.Trading?
    ensures var after := journals + [Journal(source, Move(asset, amount, from, fromBucket, to, toBucket))];
      && (forall bucket :: Balance(after, account, a, bucket)
            == Balance(journals, account, a, bucket)
              + Shift(asset, amount, from, fromBucket, to, toBucket, account, a, bucket))
      && TradingHeld(after, account, a) == TradingHeld(journals, account, a)
  {
    var j := Journal(source, Move(asset, amount, from, fromBucket, to, toBucket));
    forall bucket ensures Balance(journals + [j], account, a, bucket)
            == Balance(journals, account, a, bucket)
              + Shift(asset, amount, from, fromBucket, to, toBucket, account, a, bucket) {
      BalanceSnoc(journals, j, account, a, bucket);
      MoveEffect(asset, amount, from, fromBucket, to, toBucket, account, a, bucket);
    }
    TradingSnoc(journals, j, account, a);
  }

  /**
   One row changed and one move posted: the ledger stays balanced and the
   holds stay covered when the claims change by what the move puts into held.
   */
  lemma MoveKeeps(k: World, db: DB, db': DB, source: Source, asset: string, amount: nat, from: string,
                  fromBucket: Bucket,
                  to: string, toBucket: Bucket)
    requires LedgerOk(k, db) && HoldsOk(db) && !source.Trading? && amount > 0
    requires db'.journals == db.journals + [Journal(source, Move(asset, amount, from, fromBucket, to, toBucket))]
    requires fromBucket.Available? && k.owner(from).Some? ==> Balance(db.journals, from, asset, Available) >= amount
    requires forall account, a ::
      Claims(db', account, a)
        == Claims(db, account, a) + Shift(asset, amount, from, fromBucket, to, toBucket, account, a, Held)
    ensures LedgerOk(k, db') && HoldsOk(db')
  {
    hide Balance, TradingHeld, Balanced, Claims, Move;
    MoveBalanced(asset, amount, from, fromBucket, to, toBucket);
    AllBalancedSnoc(db.journals, Journal(source, Move(asset, amount, from, fromBucket, to, toBucket)));
    forall account: string, a: string
      ensures TradingHeld(db'.journals, account, a) == TradingHeld(db.journals, account, a)
      ensures Balance(db'.journals, account, a, Held) == Claims(db', account, a) + TradingHeld(db'.journals, account, a)
      ensures k.owner(account).Some? ==> Balance(db'.journals, account, a, Available) >= 0
    {
      PostMove(db.journals, source, asset, amount, from, fromBucket, to, toBucket, account, a);
    }
  }

  // Rows and their journals.

  /** How many journals were posted for this source. */
  function CountOf(journals: seq<Journal>, source: Source): nat {
    if journals == [] then 0
    else CountOf(journals[..|journals| - 1], source) + if journals[|journals| - 1].source == source then 1 else 0
  }

  lemma {:induction false} CountPositive(journals: seq<Journal>, source: Source)
    ensures CountOf(journals, source) > 0 <==> exists i :: 0 <= i < |journals| && journals[i].source == source
  {
    if journals != [] {
      var last := |journals| - 1;
      CountPositive(journals[..last], source);
      if i :| 0 <= i < last && journals[..last][i].source == source {
        assert journals[i].source == source;
      }
      if i :| 0 <= i < |journals| && journals[i].source == source {
        if i < last {
          assert journals[..last][i].source == source;
        }
      }
    }
  }

  function Flag(b: bool): nat {
    if b then 1 else 0
  }

  /** A withdrawal's journals: one hold, and one undoing of it exactly when it ended. */
  predicate WithdrawalPosted(journals: seq<Journal>, id: nat, w: Withdrawal) {
    && CountOf(journals, WithdrawalHold(id)) == 1
    && CountOf(journals, WithdrawalCancel(id)) == Flag(w.status.Cancelled?)
    && CountOf(journals, WithdrawalRelease(id)) == Flag(w.status.Failed?)
    && CountOf(journals, WithdrawalSettlement(id)) == Flag(w.status.Completed?)
    && exists i ::
      0 <= i < |journals| && journals[i] == Journal(WithdrawalHold(id), HoldPostings(w.account, w.asset, w.amount))
  }

  predicate WithdrawalUnposted(journals: seq<Journal>, id: nat) {
    && CountOf(journals, WithdrawalHold(id)) == 0 && CountOf(journals, WithdrawalCancel(id)) == 0
    && CountOf(journals, WithdrawalRelease(id)) == 0 && CountOf(journals, WithdrawalSettlement(id)) == 0
  }

  /** A trade's journals: one escrow, and one release or refund exactly when it ended. */
  predicate TradePosted(journals: seq<Journal>, id: nat, t: P2PTrade) {
    && CountOf(journals, Escrow(id)) == 1
    && CountOf(journals, EscrowRelease(id)) == Flag(t.status.TradeReleased?)
    && CountOf(journals, EscrowRefund(id)) == Flag(!Escrowed(t.status) && !t.status.TradeReleased?)
  }

  predicate TradeUnposted(journals: seq<Journal>, id: nat) {
    CountOf(journals, Escrow(id)) == 0 && CountOf(journals, EscrowRelease(id)) == 0
      && CountOf(journals, EscrowRefund(id)) == 0
  }

  /** A deposit is credited by exactly one journal, for its own amount, or by none. */
  predicate DepositPosted(k: World, journals: seq<Journal>, id: nat, d: Deposit) {
    && CountOf(journals, DepositCredit(id)) == Flag(d.status.Credited?)
    && (d.status.Credited? ==> exists i :: 0 <= i < |journals| && Credits(k, journals[i], id, d))
  }

  function OutcomeOf(s: WithdrawalStatus): Option<CapacityOutcome> {
    if s.Completed? then Some(Consumed) else if s.Failed? then Some(Released) else None
  }

  predicate ReservedRight(k: World, w: Withdrawal, r: Reservation) {
    r.vault == k.vault(w.user) && r.asset == k.custodyAsset(w.asset) && r.amount == w.amount
  }

  /** The states a withdrawal row can be in. */
  predicate WithdrawalOk(k: World, w: Withdrawal) {
    && k.owner(w.account) == Some(w.user) && w.amount > 0
    && (w.providerTx != "" <==> w.status.Submitted? || w.status.Completed? || w.status.Failed?)
    && (w.dispatch.Some? ==> !w.status.PendingApproval? && !w.status.Cancelled?)
    && (w.reservation.Some? ==> w.dispatch.Some?)
    && (w.terminal.Some? ==> w.reservation.Some?)
    && (w.reservation.Some? ==> w.terminal == OutcomeOf(w.status) && ReservedRight(k, w, w.reservation.value))
  }

  predicate TradeOk(k: World, t: P2PTrade) {
    && k.owner(t.sellerAccount) == Some(t.seller) && t.amount > 0
    && (t.status.Accepted? || t.status.Paid? || t.status.Disputed? ==> t.buyerAccount != "")
  }

  ghost predicate WithdrawalsOk(k: World, db: DB) {
    && (forall i | 0 <= i < |db.withdrawals| ::
          WithdrawalOk(k, db.withdrawals[i]) && WithdrawalPosted(db.journals, i, db.withdrawals[i]))
    && (forall i: nat | i >= |db.withdrawals| :: WithdrawalUnposted(db.journals, i))
    && (forall i, j | 0 <= i < j < |db.withdrawals| && db.withdrawals[i].providerTx != "" ::
          db.withdrawals[i].providerTx != db.withdrawals[j].providerTx)
    && (forall i, j | 0 <= i < j < |db.withdrawals| :: db.withdrawals[i].key != db.withdrawals[j].key)
  }

  ghost predicate TradesOk(k: World, db: DB) {
    && (forall i | 0 <= i < |db.trades| :: TradeOk(k, db.trades[i]) && TradePosted(db.journals, i, db.trades[i]))
    && (forall i: nat | i >= |db.trades| :: TradeUnposted(db.journals, i))
  }

  ghost predicate DepositsOk(k: World, db: DB) {
    && (forall i | 0 <= i < |db.deposits| :: DepositPosted(k, db.journals, i, db.deposits[i]))
    && (forall i: nat | i >= |db.deposits| :: CountOf(db.journals, DepositCredit(i)) == 0)
    && (forall i, j | 0 <= i < j < |db.deposits| ::
          db.deposits[i].tx != db.deposits[j].tx || db.deposits[i].index != db.deposits[j].index)
  }

  ghost predicate Ok(k: World, db: DB) {
    LedgerOk(k, db) && HoldsOk(db) && WithdrawalsOk(k, db) && TradesOk(k, db) && DepositsOk(k, db)
  }

  predicate AboutWithdrawal(s: Source) {
    s.WithdrawalHold? || s.WithdrawalCancel? || s.WithdrawalRelease? || s.WithdrawalSettlement?
  }

  predicate AboutTrade(s: Source) {
    s.Escrow? || s.EscrowRelease? || s.EscrowRefund?
  }

  /** A journal about something else leaves the withdrawals as they are. */
  lemma OtherKeepsWithdrawals(k: World, db: DB, db': DB, j: Journal)
    requires WithdrawalsOk(k, db) && db'.withdrawals == db.withdrawals && db'.journals == db.journals + [j]
    requires !AboutWithdrawal(j.source)
    ensures WithdrawalsOk(k, db')
  {
    hide CountOf, WithdrawalOk;
    forall i: nat ensures i < |db.withdrawals| ==> WithdrawalPosted(db'.journals, i, db.withdrawals[i])
                  ensures i >= |db.withdrawals| ==> WithdrawalUnposted(db'.journals, i) {
      StillPosted(db.journals, j, i);
      if i < |db.withdrawals| {
        var w := db.withdrawals[i];
        var h :| 0 <= h < |db.journals|
          && db.journals[h] == Journal(WithdrawalHold(i), HoldPostings(w.account, w.asset, w.amount));
        assert db'.journals[h] == db.journals[h];
      } else {
        assert WithdrawalUnposted(db.journals, i);
      }
    }
  }

  lemma StillPosted(journals: seq<Journal>, j: Journal, id: nat)
    ensures CountOf(journals + [j], WithdrawalHold(id))
      == CountOf(journals, WithdrawalHold(id)) + Flag(j.source == WithdrawalHold(id))
    ensures CountOf(journals + [j], WithdrawalCancel(id))
      == CountOf(journals, WithdrawalCancel(id)) + Flag(j.source == WithdrawalCancel(id))
    ensures CountOf(journals + [j], WithdrawalRelease(id))
      == CountOf(journals, WithdrawalRelease(id)) + Flag(j.source == WithdrawalRelease(id))
    ensures CountOf(journals + [j], WithdrawalSettlement(id))
      == CountOf(journals, WithdrawalSettlement(id)) + Flag(j.source == WithdrawalSettlement(id))
    ensures CountOf(journals + [j], Escrow(id)) == CountOf(journals, Escrow(id)) + Flag(j.source == Escrow(id))
    ensures CountOf(journals + [j], EscrowRelease(id))
      == CountOf(journals, EscrowRelease(id)) + Flag(j.source == EscrowRelease(id))
    ensures CountOf(journals + [j], EscrowRefund(id))
      == CountOf(journals, EscrowRefund(id)) + Flag(j.source == EscrowRefund(id))
    ensures CountOf(journals + [j], DepositCredit(id))
      == CountOf(journals, DepositCredit(id)) + Flag(j.source == DepositCredit(id))
  {
  }

  lemma OtherKeepsTrades(k: World, db: DB, db': DB, j: Journal)
    requires TradesOk(k, db) && db'.trades == db.trades && db'.journals == db.journals + [j] && !AboutTrade(j.source)
    ensures TradesOk(k, db')
  {
    hide CountOf, TradeOk;
    forall i: nat ensures i < |db.trades| ==> TradePosted(db'.journals, i, db.trades[i])
                  ensures i >= |db.trades| ==> TradeUnposted(db'.journals, i) {
      StillPosted(db.journals, j, i);
      if i >= |db.trades| {
        assert TradeUnposted(db.journals, i);
      }
    }
  }

  lemma OtherKeepsDeposits(k: World, db: DB, db': DB, j: Journal)
    requires DepositsOk(k, db) && db'.deposits == db.deposits && db'.journals == db.journals + [j]
      && !j.source.DepositCredit?
    ensures DepositsOk(k, db')
  {
  }
}
