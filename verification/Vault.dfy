/** The custody vault always covers what was promised from it. */
module Vault {
  import opened Options
  import opened Sums
  import opened Money
  import opened MoneyLaws
  import opened MoneyRuns
  import opened Payouts
  import opened PayoutLaws

  /** A reservation that was neither paid nor released is still owed. */
  function OwedWeight(w: Withdrawal, p: Payout, vault: string, asset: string): nat {
    if w.reservation.Some? && !p.state.Settled? && w.terminal != Some(Released)
      then ReservedFor(w.reservation.value, vault, asset) else 0
  }

  function OwedWeights(withdrawals: seq<Withdrawal>, payouts: seq<Payout>, vault: string,
                       asset: string): (weights: seq<int>)
    requires |withdrawals| == |payouts|
    ensures |weights| == |withdrawals|
    ensures forall i | 0 <= i < |withdrawals| :: weights[i] == OwedWeight(withdrawals[i], payouts[i], vault, asset)
  {
    seq(|withdrawals|, i requires 0 <= i < |withdrawals| => OwedWeight(withdrawals[i], payouts[i], vault, asset))
  }

  /** What the vault still has to pay of an asset, as amounts and as fees. */
  function Owed(s: System, vault: string, asset: string): int
    requires |s.db.withdrawals| == |s.payouts|
  {
    Sum(OwedWeights(s.db.withdrawals, s.payouts, vault, asset))
  }

  /** What was paid after a sighting, at most. */
  function LeftWeight(w: Withdrawal, p: Payout, before: bool, vault: string, asset: string): nat {
    if w.reservation.Some? && p.state.Settled? && !before then ReservedFor(w.reservation.value, vault, asset) else 0
  }

  function LeftWeights(withdrawals: seq<Withdrawal>, payouts: seq<Payout>, paid: set<nat>, vault: string,
                       asset: string): (weights: seq<int>)
    requires |withdrawals| == |payouts|
    ensures |weights| == |withdrawals|
    ensures forall i | 0 <= i < |withdrawals| ::
      weights[i] == LeftWeight(withdrawals[i], payouts[i], i in paid, vault, asset)
  {
    seq(|withdrawals|, i requires 0 <= i
      < |withdrawals| => LeftWeight(withdrawals[i], payouts[i], i in paid, vault, asset))
  }

  function LeftSince(s: System, paid: set<nat>, vault: string, asset: string): int
    requires |s.db.withdrawals| == |s.payouts|
  {
    Sum(LeftWeights(s.db.withdrawals, s.payouts, paid, vault, asset))
  }

  /** A sighting overstates the vault by no more than what left it since. */
  predicate SightOk(s: System, seen: Sighting, vault: string, asset: string)
    requires |s.db.withdrawals| == |s.payouts|
  {
    seen.amount <= VaultBalance(s.flows, vault, asset) + LeftSince(s, seen.paid, vault, asset)
  }

  /** The evidence a worker holds is what it saw. */
  predicate WorkerSaw(s: System, w: Worker)
    requires |s.db.withdrawals| == |s.payouts|
  {
    match w
    case Looked(item, _, asset) => SightOk(s, asset, item.vault, item.custodyAsset)
    case Ready(item, evidence, asset, fee) =>
      && evidence.Some?
      && evidence.value.assetAvailable == asset.amount && evidence.value.feeAvailable == fee.amount
      && (evidence.value.feeAsset == item.custodyAsset ==> fee == asset)
      && SightOk(s, asset, item.vault, item.custodyAsset) && SightOk(s, fee, item.vault, evidence.value.feeAsset)
    case _ => true
  }

  predicate Covered(s: System, vault: string, asset: string)
    requires |s.db.withdrawals| == |s.payouts|
  {
    Owed(s, vault, asset) <= VaultBalance(s.flows, vault, asset)
  }

  ghost predicate VaultOk(s: System) {
    && |s.db.withdrawals| == |s.payouts|
    && (forall vault: string, asset: string :: Covered(s, vault, asset))
    && (forall i | 0 <= i < |s.workers| :: WorkerSaw(s, s.workers[i]))
    && (forall i | 0 <= i < |s.db.withdrawals| :: s.db.withdrawals[i].dispatch.Some? ==>
          s.db.withdrawals[i].reservation.Some?)
  }

  /** Nothing paid since the sighting was already struck off the open reservations. */
  predicate NoneConsumedSince(s: System, seen: Sighting)
    requires |s.db.withdrawals| == |s.payouts|
  {
    forall i | 0 <= i < |s.payouts| :: s.payouts[i].state.Settled? && i !in seen.paid ==>
      s.db.withdrawals[i].terminal.None?
  }

  /**
   Routes are always required, and no payout is marked consumed between the
   sighting that missed it and the commit.
   */
  predicate Careful(s: System, e: Event) {
    && !e.Skip?
    && (e.Claim? && e.worker < |s.workers| && s.workers[e.worker].Ready? && |s.db.withdrawals| == |s.payouts| ==>
          NoneConsumedSince(s, s.workers[e.worker].asset) && NoneConsumedSince(s, s.workers[e.worker].fee))
  }

  lemma FlowSnoc(flows: seq<Flow>, f: Flow, vault: string, asset: string)
    ensures VaultBalance(flows + [f], vault, asset)
         == VaultBalance(flows, vault, asset) + if f.vault == vault && f.asset == asset then f.delta else 0
  {
  }

  lemma OwedNonNegative(s: System, vault: string, asset: string)
    requires |s.db.withdrawals| == |s.payouts|
    ensures Owed(s, vault, asset) >= 0
  {
    SumNonNegative(OwedWeights(s.db.withdrawals, s.payouts, vault, asset));
  }

  /** The heart of it: what is open covers what is owed and what left since an honest sighting. */
  lemma OpenCovers(k: World, s: System, seen: Sighting, vault: string, asset: string)
    requires PayOk(k, s) && NoneConsumedSince(s, seen)
    ensures Owed(s, vault, asset) + LeftSince(s, seen.paid, vault, asset)
      <= OpenCapacity(s.db.withdrawals, vault, asset)
  {
    hide LedgerOk, HoldsOk, TradesOk, DepositsOk, ClaimsOn, WithdrawalPosted, ReservedFor;
    var owed := OwedWeights(s.db.withdrawals, s.payouts, vault, asset);
    var left := LeftWeights(s.db.withdrawals, s.payouts, seen.paid, vault, asset);
    var open := OpenWeights(s.db.withdrawals, vault, asset);
    forall i | 0 <= i < |owed| ensures owed[i] + left[i] <= open[i] {
      assert WithdrawalOk(k, s.db.withdrawals[i]);
      assert RowPay(s.db.withdrawals[i], s.payouts[i], ClaimsOn(s.workers, i));
    }
    SumSplit(owed, left, open);
  }

  // Events that pay nothing and promise nothing.

  /** Reservations and payments are the same, row by row; rows may have been released or added. */
  predicate AlikeRow(w: Withdrawal, p: Payout, w': Withdrawal, p': Payout) {
    && w'.reservation == w.reservation && (p'.state.Settled? <==> p.state.Settled?)
    && (w'.dispatch.Some? <==> w.dispatch.Some?)
    && (w.terminal == Some(Released) ==> w'.terminal == Some(Released))
  }

  predicate Alike(s: System, s': System) {
    && |s.db.withdrawals| == |s.payouts| && |s'.db.withdrawals| == |s'.payouts| >= |s.payouts|
    && s'.flows == s.flows
    && (forall i | 0 <= i < |s.payouts| ::
          AlikeRow(s.db.withdrawals[i], s.payouts[i], s'.db.withdrawals[i], s'.payouts[i]))
    && (forall i | |s.payouts| <= i < |s'.payouts| ::
          s'.db.withdrawals[i].reservation.None? && s'.db.withdrawals[i].dispatch.None?)
  }

  lemma {:induction false} ZeroRows(weights: seq<int>)
    requires forall i | 0 <= i < |weights| :: weights[i] == 0
    ensures Sum(weights) == 0
  {
    if weights != [] {
      ZeroRows(weights[..|weights| - 1]);
    }
  }

  lemma Padded(weights: seq<int>, longer: seq<int>)
    requires |weights| <= |longer| && forall i | 0 <= i < |weights| :: longer[i] <= weights[i]
    requires forall i | |weights| <= i < |longer| :: longer[i] == 0
    ensures Sum(longer) <= Sum(weights)
    ensures (forall i | 0 <= i < |weights| :: longer[i] == weights[i]) ==> Sum(longer) == Sum(weights)
  {
  }

  lemma AlikeSums(s: System, s': System, vault: string, asset: string, paid: set<nat>)
    requires Alike(s, s')
    ensures Owed(s', vault, asset) <= Owed(s, vault, asset)
    ensures LeftSince(s', paid, vault, asset) == LeftSince(s, paid, vault, asset)
  {
    hide ReservedFor;
    var owed, owed' := OwedWeights(s.db.withdrawals, s.payouts, vault, asset),
      OwedWeights(s'.db.withdrawals, s'.payouts, vault, asset);
    var left, left' := LeftWeights(s.db.withdrawals, s.payouts, paid, vault, asset),
      LeftWeights(s'.db.withdrawals, s'.payouts, paid, vault, asset);
    forall i | 0 <= i < |owed| ensures owed'[i] <= owed[i] && left'[i] == left[i] {
      assert AlikeRow(s.db.withdrawals[i], s.payouts[i], s'.db.withdrawals[i], s'.payouts[i]);
    }
    Padded(owed, owed');
    Padded(left, left');
  }

  lemma AlikeSaw(s: System, s': System, w: Worker)
    requires Alike(s, s') && WorkerSaw(s, w)
    ensures WorkerSaw(s', w)
  {
    hide Owed, LeftSince, VaultBalance;
    match w
    case Looked(item, _, asset) => AlikeSums(s, s', item.vault, item.custodyAsset, asset.paid);
    case Ready(item, evidence, asset, fee) =>
      AlikeSums(s, s', item.vault, item.custodyAsset, asset.paid);
      AlikeSums(s, s', item.vault, evidence.value.feeAsset, fee.paid);
    case _ =>
  }

  predicate SawNothing(w: Worker) {
    !w.Looked? && !w.Ready?
  }

  /** Nothing changes for the vault, and each worker keeps what it saw or forgets it. */
  lemma AlikeOk(s: System, s': System)
    requires VaultOk(s) && Alike(s, s') && |s'.workers| == |s.workers|
    requires forall i | 0 <= i < |s.workers| :: s'.workers[i] == s.workers[i] || SawNothing(s'.workers[i])
    ensures VaultOk(s')
  {
    hide Owed, VaultBalance, WorkerSaw;
    forall vault: string, asset: string ensures Covered(s', vault, asset) {
      assert Covered(s, vault, asset);
      AlikeSums(s, s', vault, asset, {});
    }
    forall i | 0 <= i < |s'.workers| ensures WorkerSaw(s', s'.workers[i]) {
      if s'.workers[i] == s.workers[i] {
        assert WorkerSaw(s, s.workers[i]);
        AlikeSaw(s, s', s.workers[i]);
      } else {
        SawNothingOk(s', s'.workers[i]);
      }
    }
    forall i | 0 <= i < |s'.db.withdrawals|
      ensures s'.db.withdrawals[i].dispatch.Some? ==> s'.db.withdrawals[i].reservation.Some?
    {
      if i < |s.payouts| {
        assert AlikeRow(s.db.withdrawals[i], s.payouts[i], s'.db.withdrawals[i], s'.payouts[i]);
      }
    }
  }

  lemma SawNothingOk(s: System, w: Worker)
    requires |s.db.withdrawals| == |s.payouts| && SawNothing(w)
    ensures WorkerSaw(s, w)
  {
  }

  /** Which events these are. */
  predicate Quiet(e: Event) {
    e.Elsewhere? || e.Pick? || e.Call? || e.Acknowledge? || e.Crash? || e.Reconcile? || e.Report? || e.Fail?
  }

  lemma RowPerWithdrawal(k: World, s: System)
    requires PayOk(k, s)
    ensures |s.db.withdrawals| == |s.payouts|
  {
  }

  lemma AlikeItself(s: System, s': System)
    requires |s.db.withdrawals| == |s.payouts|
    ensures s'.db == s.db && s'.payouts == s.payouts && s'.flows == s.flows ==> Alike(s, s')
  {
  }

  lemma AlikeWorkers(s: System, s': System, workers: seq<Worker>)
    requires Alike(s, s')
    ensures Alike(s, s'.(workers := workers))
  {
  }

  lemma FailAlike(k: World, s: System, id: nat)
    requires |s.db.withdrawals| == |s.payouts|
    ensures Alike(s, Next(k, s, Fail(id)))
  {
  }

  lemma QuietAlike(k: World, s: System, e: Event)
    requires PayOk(k, s) && Quiet(e)
    ensures Alike(s, Next(k, s, e))
    ensures var s' := Next(k, s, e);
      |s'.workers| == |s.workers| && forall i | 0 <= i < |s.workers| ::
        s'.workers[i] == s.workers[i] || SawNothing(s'.workers[i])
  {
    hide Ok, RowPay, WorkersOk, DistinctTx, Step, ClaimsOn, BeginDispatch, MarkSubmitted, CustodyUpdate, VaultBalance,
      Accepts;
    hide Alike, RowsPay;
    assert |s.db.withdrawals| == |s.payouts| by {
      RowPerWithdrawal(k, s);
    }
    AlikeItself(s, Next(k, s, e));
    match e
    case Elsewhere(a) => if IsElsewhere(a) { ElsewhereAlike(k, s, a); }
    case Fail(id) => FailAlike(k, s, id);
    case Acknowledge(i) =>
      if i < |s.workers| && s.workers[i].Answered? {
        MarkRows(k, s, s.workers[i].id, s.workers[i].tx);
        AlikeWorkers(s, s.(db := MarkSubmitted(s.db, s.workers[i].id, s.workers[i].tx).0), s.workers[i := Idle]);
      }
    case Reconcile(id) => if id < |s.payouts| { MarkRows(k, s, id, s.payouts[id].tx); }
    case Report(id, status) => if id < |s.payouts| && Reported(s.payouts[id], status) { UpdateRows(k, s, id, status); }
    case Call(i, accepted, tx, heard) => CallAlike(k, s, i, accepted, tx, heard);
    case _ =>
  }

  /** A call to the provider takes a payout or leaves it, and settles nothing. */
  lemma CallAlike(k: World, s: System, i: nat, accepted: bool, tx: string, heard: bool)
    requires PayOk(k, s)
    ensures Alike(s, Next(k, s, Call(i, accepted, tx, heard)))
  {
    hide Ok, WorkersOk, DistinctTx, ClaimsOn;
  }

  lemma ElsewhereAlike(k: World, s: System, a: Action)
    requires |s.db.withdrawals| == |s.payouts| && IsElsewhere(a)
    ensures Alike(s, Next(k, s, Elsewhere(a)))
  {
    hide Step;
    ElsewhereFrame(k, s.db, a);
    var s' := Next(k, s, Elsewhere(a));
    forall i | 0 <= i < |s.payouts|
      ensures AlikeRow(s.db.withdrawals[i], s.payouts[i], s'.db.withdrawals[i], s'.payouts[i])
    {
      assert RowFrame(s.db.withdrawals[i], s'.db.withdrawals[i]);
    }
  }

  lemma MarkRows(k: World, s: System, id: nat, tx: string)
    requires |s.db.withdrawals| == |s.payouts|
    ensures Alike(s, s.(db := MarkSubmitted(s.db, id, tx).0))
  {
  }

  lemma UpdateRows(k: World, s: System, id: nat, status: ProviderStatus)
    requires PayOk(k, s) && id < |s.payouts|
    ensures Alike(s, s.(db := CustodyUpdate(k, s.db, s.payouts[id].tx, status).0))
  {
    hide FindTx, LedgerOk, HoldsOk, TradesOk, DepositsOk, ClaimsOn, WithdrawalPosted;
    var found := FindTx(s.db.withdrawals, s.payouts[id].tx);
    if found >= 0 {
      assert WithdrawalOk(k, s.db.withdrawals[found]);
    }
  }

  // Looking.

  lemma SeeOk(s: System, vault: string, asset: string)
    requires VaultOk(s)
    ensures SightOk(s, See(s, vault, asset), vault, asset)
  {
    hide VaultBalance;
    OwedNonNegative(s, vault, asset);
    assert Covered(s, vault, asset);
    var left := LeftWeights(s.db.withdrawals, s.payouts, PaidSet(s.payouts), vault, asset);
    forall i | 0 <= i < |left| ensures left[i] == 0 {
      assert s.payouts[i].state.Settled? ==> i in PaidSet(s.payouts);
    }
    ZeroRows(left);
  }

  lemma LookOk(k: World, s: System, e: Event)
    requires VaultOk(s) && (e.Look? || e.Estimate?)
    ensures VaultOk(Next(k, s, e))
  {
    hide Covered, VaultBalance, SightOk, See;
    var s' := Next(k, s, e);
    if s' != s {
      var i := e.worker;
      assert WorkerSaw(s, s.workers[i]);
      SeeOk(s, s.workers[i].item.vault, s.workers[i].item.custodyAsset);
      if e.Estimate? {
        SeeOk(s, s.workers[i].item.vault, s.workers[i].feeAsset);
      }
      SameVault(s, s', i);
    }
  }

  lemma SameVault(s: System, s': System, i: nat)
    requires VaultOk(s) && i < |s.workers| && i < |s'.workers| && s' == s.(workers := s.workers[i := s'.workers[i]])
      && WorkerSaw(s, s'.workers[i])
    ensures VaultOk(s')
  {
    hide Owed, LeftSince, VaultBalance;
    forall vault: string, asset: string ensures Covered(s', vault, asset) {
      assert Covered(s, vault, asset);
      SameSums(s, s', vault, asset, {});
    }
    forall j | 0 <= j < |s'.workers| ensures WorkerSaw(s', s'.workers[j]) {
      assert WorkerSaw(s, s'.workers[j]);
      SameSaw(s, s', s'.workers[j]);
    }
  }

  lemma SameSums(s: System, s': System, vault: string, asset: string, paid: set<nat>)
    requires |s.db.withdrawals| == |s.payouts| && s'.db == s.db && s'.payouts == s.payouts && s'.flows == s.flows
    ensures Owed(s', vault, asset) == Owed(s, vault, asset)
    ensures LeftSince(s', paid, vault, asset) == LeftSince(s, paid, vault, asset)
  {
  }

  lemma SameSaw(s: System, s': System, w: Worker)
    requires |s.db.withdrawals| == |s.payouts| && s'.db == s.db && s'.payouts == s.payouts && s'.flows == s.flows
    requires WorkerSaw(s, w)
    ensures WorkerSaw(s', w)
  {
  }

  // Money in and out of the vault.

  /** One payout settles: the vault loses at most what was reserved for it. */
  lemma SettleSums(s: System, s': System, id: nat, vault: string, asset: string, paid: set<nat>)
    requires |s.db.withdrawals| == |s.payouts| && id < |s.payouts| && !s.payouts[id].state.Settled? && id !in paid
    requires s.db.withdrawals[id].reservation.Some? && s.db.withdrawals[id].terminal != Some(Released)
    requires s'.db == s.db && s'.payouts == s.payouts[id := s.payouts[id].(state := Settled)]
    ensures var reserved := ReservedFor(s.db.withdrawals[id].reservation.value, vault, asset);
      && Owed(s', vault, asset) == Owed(s, vault, asset) - reserved
      && LeftSince(s', paid, vault, asset) == LeftSince(s, paid, vault, asset) + reserved
  {
    hide ReservedFor;
    var owed, left := OwedWeights(s.db.withdrawals, s.payouts, vault, asset),
      LeftWeights(s.db.withdrawals, s.payouts, paid, vault, asset);
    var reserved := ReservedFor(s.db.withdrawals[id].reservation.value, vault, asset);
    assert OwedWeights(s'.db.withdrawals, s'.payouts, vault, asset) == owed[id := 0];
    assert LeftWeights(s'.db.withdrawals, s'.payouts, paid, vault, asset) == left[id := reserved];
    SumUpdate(owed, id, 0);
    SumUpdate(left, id, reserved);
  }

  lemma PayFlows(flows: seq<Flow>, r: Reservation, fee: nat, vault: string, asset: string)
    requires fee <= r.fee
    ensures var after := flows + [Flow(r.vault, r.asset, 0 - r.amount), Flow(r.vault, r.feeAsset, 0 - fee)];
      VaultBalance(after, vault, asset) >= VaultBalance(flows, vault, asset) - ReservedFor(r, vault, asset)
  {
    hide VaultBalance;
    var first, second := Flow(r.vault, r.asset, 0 - r.amount), Flow(r.vault, r.feeAsset, 0 - fee);
    FlowSnoc(flows, first, vault, asset);
    FlowSnoc(flows + [first], second, vault, asset);
    assert flows + [first, second] == flows + [first] + [second];
  }

  predicate SawOnlyPaid(s: System, w: Worker) {
    match w
    case Looked(_, _, asset) => asset.paid <= PaidSet(s.payouts)
    case Ready(_, evidence, asset, fee) => evidence.Some? ==>
      asset.paid <= PaidSet(s.payouts) && fee.paid <= PaidSet(s.payouts)
    case _ => true
  }

  predicate AllSawOnlyPaid(s: System) {
    forall i | 0 <= i < |s.workers| :: SawOnlyPaid(s, s.workers[i])
  }

  lemma PayWorker(s: System, s': System, id: nat, fee: nat, w: Worker)
    requires |s.db.withdrawals| == |s.payouts| && id < |s.payouts| && s.payouts[id].state.Taken?
    requires s.db.withdrawals[id].reservation.Some? && s.db.withdrawals[id].terminal != Some(Released)
    requires fee <= s.db.withdrawals[id].reservation.value.fee
    requires var r := s.db.withdrawals[id].reservation.value;
      && s'.db == s.db && s'.payouts == s.payouts[id := s.payouts[id].(state := Settled)]
      && s'.flows == s.flows + [Flow(r.vault, r.asset, 0 - r.amount), Flow(r.vault, r.feeAsset, 0 - fee)]
    requires WorkerSaw(s, w) && SawOnlyPaid(s, w)
    ensures WorkerSaw(s', w)
  {
    hide VaultBalance, Owed, LeftSince, ReservedFor;
    var r := s.db.withdrawals[id].reservation.value;
    assert id !in PaidSet(s.payouts);
    match w
    case Looked(item, _, asset) =>
      SettleSums(s, s', id, item.vault, item.custodyAsset, asset.paid);
      PayFlows(s.flows, r, fee, item.vault, item.custodyAsset);
    case Ready(item, evidence, asset, feeSeen) =>
      SettleSums(s, s', id, item.vault, item.custodyAsset, asset.paid);
      PayFlows(s.flows, r, fee, item.vault, item.custodyAsset);
      SettleSums(s, s', id, item.vault, evidence.value.feeAsset, feeSeen.paid);
      PayFlows(s.flows, r, fee, item.vault, evidence.value.feeAsset);
    case _ =>
  }

  lemma PaidOk(s: System, s': System, id: nat, fee: nat)
    requires VaultOk(s) && AllSawOnlyPaid(s) && id < |s.payouts| && s.payouts[id].state.Taken?
    requires s.db.withdrawals[id].reservation.Some? && s.db.withdrawals[id].terminal.None?
    requires fee <= s.db.withdrawals[id].reservation.value.fee
    requires var r := s.db.withdrawals[id].reservation.value;
      && s'.db == s.db && s'.payouts == s.payouts[id := s.payouts[id].(state := Settled)] && s'.workers == s.workers
      && s'.flows == s.flows + [Flow(r.vault, r.asset, 0 - r.amount), Flow(r.vault, r.feeAsset, 0 - fee)]
    ensures VaultOk(s')
  {
    hide VaultBalance, Owed, ReservedFor, WorkerSaw, SawOnlyPaid;
    var r := s.db.withdrawals[id].reservation.value;
    forall vault: string, asset: string ensures Covered(s', vault, asset) {
      assert Covered(s, vault, asset);
      SettleSums(s, s', id, vault, asset, {});
      PayFlows(s.flows, r, fee, vault, asset);
    }
    forall i | 0 <= i < |s'.workers| ensures WorkerSaw(s', s'.workers[i]) {
      assert WorkerSaw(s, s.workers[i]) && SawOnlyPaid(s, s.workers[i]);
      PayWorker(s, s', id, fee, s.workers[i]);
    }
  }

  lemma PayVaultOk(k: World, s: System, id: nat, fee: nat)
    requires PayOk(k, s) && VaultOk(s) && AllSawOnlyPaid(s)
    ensures VaultOk(Next(k, s, Pay(id, fee)))
  {
    hide Ok, Covered, WorkerSaw, SawOnlyPaid, RowsPay, WorkersOk, DistinctTx;
    var s' := Next(k, s, Pay(id, fee));
    if s' != s {
      TakenIsDispatched(k, s, id);
      PaidOk(s, s', id, fee);
    }
  }

  /** A payout the provider has taken is dispatched and not released. */
  lemma TakenIsDispatched(k: World, s: System, id: nat)
    requires PayOk(k, s) && id < |s.payouts| && s.payouts[id].state.Taken?
    ensures s.db.withdrawals[id].dispatch.Some? && s.db.withdrawals[id].terminal.None?
  {
  }

  lemma FundOk(k: World, s: System, vault: string, asset: string, amount: nat)
    requires VaultOk(s)
    ensures VaultOk(Next(k, s, Fund(vault, asset, amount)))
  {
    hide VaultBalance, Owed, LeftSince;
    var s' := Next(k, s, Fund(vault, asset, amount));
    forall v: string, a: string
      ensures VaultBalance(s'.flows, v, a) >= VaultBalance(s.flows, v, a) && Covered(s', v, a)
    {
      FlowSnoc(s.flows, Flow(vault, asset, amount), v, a);
      assert Covered(s, v, a);
      SameRows(s, s', v, a, {});
    }
    forall i | 0 <= i < |s'.workers| ensures WorkerSaw(s', s'.workers[i]) {
      assert WorkerSaw(s, s.workers[i]);
      FundSaw(s, s', s.workers[i]);
    }
  }

  lemma SameRows(s: System, s': System, vault: string, asset: string, paid: set<nat>)
    requires |s.db.withdrawals| == |s.payouts| && s'.db == s.db && s'.payouts == s.payouts
    ensures Owed(s', vault, asset) == Owed(s, vault, asset)
    ensures LeftSince(s', paid, vault, asset) == LeftSince(s, paid, vault, asset)
  {
  }

  lemma FundSaw(s: System, s': System, w: Worker)
    requires |s.db.withdrawals| == |s.payouts| && s'.db == s.db && s'.payouts == s.payouts && WorkerSaw(s, w)
    requires forall v: string, a: string :: VaultBalance(s'.flows, v, a) >= VaultBalance(s.flows, v, a)
    ensures WorkerSaw(s', w)
  {
  }

  // Promising more.

  /** A new reservation adds exactly what it reserves. */
  lemma ReserveSums(s: System, s': System, id: nat, r: Reservation, vault: string, asset: string, paid: set<nat>)
    requires |s.db.withdrawals| == |s.payouts| && id < |s.payouts| && !s.payouts[id].state.Settled?
    requires s.db.withdrawals[id].reservation.None? && s.db.withdrawals[id].terminal.None?
    requires s'.payouts == s.payouts && |s'.db.withdrawals| == |s.db.withdrawals|
    requires s'.db.withdrawals == s.db.withdrawals[id := s'.db.withdrawals[id]]
    requires s'.db.withdrawals[id].reservation == Some(r) && s'.db.withdrawals[id].terminal.None?
    ensures Owed(s', vault, asset) == Owed(s, vault, asset) + ReservedFor(r, vault, asset)
    ensures LeftSince(s', paid, vault, asset) == LeftSince(s, paid, vault, asset)
  {
    hide ReservedFor;
    var owed := OwedWeights(s.db.withdrawals, s.payouts, vault, asset);
    assert OwedWeights(s'.db.withdrawals, s'.payouts, vault, asset) == owed[id := ReservedFor(r, vault, asset)];
    assert LeftWeights(s'.db.withdrawals, s'.payouts, paid, vault, asset)
      == LeftWeights(s.db.withdrawals, s.payouts, paid, vault, asset);
    SumUpdate(owed, id, ReservedFor(r, vault, asset));
  }

  /** The capacity check, made on honest sightings, leaves room for the new reservation. */
  lemma RoomFor(k: World, s: System, w: Worker, vault: string, asset: string)
    requires PayOk(k, s) && VaultOk(s) && w.Ready? && WorkerSaw(s, w) && HasCapacity(s.db, w.item, w.evidence.value)
    requires NoneConsumedSince(s, w.asset) && NoneConsumedSince(s, w.fee)
    ensures var r := Reservation(w.item.vault, w.item.custodyAsset, w.item.amount, w.evidence.value.feeAsset,
                                 w.evidence.value.feeRequired);
      Owed(s, vault, asset) + ReservedFor(r, vault, asset) <= VaultBalance(s.flows, vault, asset)
  {
    hide Ok, VaultBalance, Owed, LeftSince, OpenCapacity, RowsPay, WorkersOk, DistinctTx, NoneConsumedSince;
    assert Covered(s, vault, asset);
    OpenCovers(k, s, w.asset, w.item.vault, w.item.custodyAsset);
    OpenCovers(k, s, w.fee, w.item.vault, w.evidence.value.feeAsset);
  }

  lemma ReserveSaw(s: System, s': System, id: nat, r: Reservation, w: Worker)
    requires |s.db.withdrawals| == |s.payouts| && id < |s.payouts| && !s.payouts[id].state.Settled?
    requires s.db.withdrawals[id].reservation.None? && s.db.withdrawals[id].terminal.None?
    requires s'.payouts == s.payouts && |s'.db.withdrawals| == |s.db.withdrawals| && s'.flows == s.flows
    requires s'.db.withdrawals == s.db.withdrawals[id := s'.db.withdrawals[id]]
    requires s'.db.withdrawals[id].reservation == Some(r) && s'.db.withdrawals[id].terminal.None?
    requires WorkerSaw(s, w)
    ensures WorkerSaw(s', w)
  {
    hide VaultBalance, Owed, LeftSince, ReservedFor;
    match w
    case Looked(item, _, asset) => ReserveSums(s, s', id, r, item.vault, item.custodyAsset, asset.paid);
    case Ready(item, evidence, asset, fee) =>
      ReserveSums(s, s', id, r, item.vault, item.custodyAsset, asset.paid);
      ReserveSums(s, s', id, r, item.vault, evidence.value.feeAsset, fee.paid);
    case _ =>
  }

  lemma ReservedOk(k: World, s: System, s': System, i: nat, r: Reservation)
    requires PayOk(k, s) && VaultOk(s) && i < |s.workers| && s.workers[i].Ready?
    requires var w := s.workers[i];
      && w.item.id < |s.payouts| && !s.payouts[w.item.id].state.Settled?
      && HasCapacity(s.db, w.item, w.evidence.value) && NoneConsumedSince(s, w.asset) && NoneConsumedSince(s, w.fee)
      && r == Reservation(w.item.vault, w.item.custodyAsset, w.item.amount, w.evidence.value.feeAsset,
                          w.evidence.value.feeRequired)
      && s.db.withdrawals[w.item.id].reservation.None? && s.db.withdrawals[w.item.id].terminal.None?
      && s'.payouts == s.payouts && |s'.db.withdrawals| == |s.db.withdrawals| && s'.flows == s.flows
      && s'.db.withdrawals == s.db.withdrawals[w.item.id := s'.db.withdrawals[w.item.id]]
      && s'.db.withdrawals[w.item.id].reservation == Some(r) && s'.db.withdrawals[w.item.id].terminal.None?
      && s'.workers == s.workers[i := Claimed(w.item)]
    ensures VaultOk(s')
  {
    hide Ok, VaultBalance, Owed, ReservedFor, LeftSince, HasCapacity, NoneConsumedSince, RowsPay, WorkersOk, DistinctTx;
    var w := s.workers[i];
    assert WorkerSaw(s, w);
    forall vault: string, asset: string ensures Covered(s', vault, asset) {
      RoomFor(k, s, w, vault, asset);
      ReserveSums(s, s', w.item.id, r, vault, asset, {});
    }
    forall j | 0 <= j < |s'.workers| ensures WorkerSaw(s', s'.workers[j]) {
      if j != i {
        assert WorkerSaw(s, s.workers[j]);
        ReserveSaw(s, s', w.item.id, r, s.workers[j]);
      }
    }
  }

  lemma ClaimVaultOk(k: World, s: System, i: nat, provider: string, checks: Checks)
    requires PayOk(k, s) && VaultOk(s) && i < |s.workers| && s.workers[i].Ready?
      && Careful(s, Claim(i, provider, checks))
    ensures VaultOk(Next(k, s, Claim(i, provider, checks)))
  {
    hide Ok, Covered, SightOk, HasCapacity, HoldStands, Entitled, NoneConsumedSince, RowPay, DistinctTx, ClaimsOn;
    var w, s' := s.workers[i], Next(k, s, Claim(i, provider, checks));
    assert WorkerSaw(s, w) && WorkerOk(w, s.payouts);
    var (db, reply) := BeginDispatch(k, s.db, provider, w.item, w.evidence, checks);
    if reply.Done? {
      UndispatchedIsBlank(k, s, w.item.id);
      ReservedOk(k, s, s', i, s'.db.withdrawals[w.item.id].reservation.value);
    } else {
      assert db == s.db;
      AlikeOk(s, s');
    }
  }

  lemma UndispatchedIsBlank(k: World, s: System, id: nat)
    requires PayOk(k, s) && id < |s.payouts| && s.db.withdrawals[id].dispatch.None?
    ensures !s.payouts[id].state.Settled? && s.db.withdrawals[id].reservation.None?
      && s.db.withdrawals[id].terminal.None?
  {
  }

  // Runs.

  lemma PaidGrows(k: World, s: System, e: Event)
    requires |s.db.withdrawals| == |s.payouts| && AllSawOnlyPaid(s)
    ensures AllSawOnlyPaid(Next(k, s, e))
  {
    hide Step, BeginDispatch, MarkSubmitted, CustodyUpdate, VaultBalance;
    var s' := Next(k, s, e);
    assert PaidSet(s.payouts) <= PaidSet(s'.payouts);
    forall i | 0 <= i < |s'.workers| ensures SawOnlyPaid(s', s'.workers[i]) {
      if i < |s.workers| {
        assert SawOnlyPaid(s, s.workers[i]);
      }
    }
  }

  lemma NextVaultOk(k: World, s: System, e: Event)
    requires WorldOk(k) && PayOk(k, s) && VaultOk(s) && AllSawOnlyPaid(s) && Careful(s, e)
    ensures VaultOk(Next(k, s, e)) && AllSawOnlyPaid(Next(k, s, e))
  {
    hide Ok, RowsPay, WorkersOk, DistinctTx, Next, Covered, WorkerSaw, SawOnlyPaid;
    PaidGrows(k, s, e);
    if Quiet(e) {
      QuietAlike(k, s, e);
      AlikeOk(s, Next(k, s, e));
    } else {
      match e
      case Look(_, _) => LookOk(k, s, e);
      case Estimate(_, _, _) => LookOk(k, s, e);
      case Pay(id, fee) => PayVaultOk(k, s, id, fee);
      case Fund(vault, asset, amount) => FundOk(k, s, vault, asset, amount);
      case Claim(i, provider, checks) =>
        if i < |s.workers| && s.workers[i].Ready? {
          ClaimVaultOk(k, s, i, provider, checks);
        } else {
          NoClaim(k, s, i, provider, checks);
        }
      case _ =>
    }
  }

  lemma NoClaim(k: World, s: System, i: nat, provider: string, checks: Checks)
    requires i >= |s.workers| || !s.workers[i].Ready?
    ensures Next(k, s, Claim(i, provider, checks)) == s
  {
    hide BeginDispatch;
  }

  ghost predicate CarefulRun(k: World, controls: Controls, workers: nat, events: seq<Event>) {
    forall n | 0 <= n < |events| :: Careful(RunSystem(k, controls, workers, events[..n]), events[n])
  }

  /** Over every careful run the vault covers what is owed from it, in every asset, amounts and fees together. */
  lemma {:induction false} VaultCovers(k: World, controls: Controls, workers: nat, events: seq<Event>)
    requires WorldOk(k) && CarefulRun(k, controls, workers, events)
    ensures var s := RunSystem(k, controls, workers, events);
      VaultOk(s) && AllSawOnlyPaid(s)
  {
    hide PayOk, Next;
    if events != [] {
      var shorter, n := events[..|events| - 1], |events| - 1;
      forall m | 0 <= m < |shorter| ensures Careful(RunSystem(k, controls, workers, shorter[..m]), shorter[m]) {
        assert shorter[..m] == events[..m] && Careful(RunSystem(k, controls, workers, events[..m]), events[m]);
      }
      VaultCovers(k, controls, workers, shorter);
      RunPayOk(k, controls, workers, shorter);
      assert Careful(RunSystem(k, controls, workers, events[..n]), events[n]);
      NextVaultOk(k, RunSystem(k, controls, workers, shorter), events[n]);
    }
  }
}
