/** At most one payout per withdrawal, over every interleaving. */
module PayoutLaws {
  import opened Options
  import opened Sums
  import opened Ledger
  import opened Money
  import opened MoneyLaws
  import opened MoneyRows
  import opened MoneyRuns
  import opened Payouts

  function ClaimFlag(w: Worker, id: nat): int {
    if w.Claimed? && w.item.id == id then 1 else 0
  }

  function ClaimFlags(workers: seq<Worker>, id: nat): (flags: seq<int>)
    ensures |flags| == |workers|
    ensures forall i | 0 <= i < |workers| :: flags[i] == ClaimFlag(workers[i], id)
  {
    seq(|workers|, i requires 0 <= i < |workers| => ClaimFlag(workers[i], id))
  }

  /** How many workers hold the permission to pay this withdrawal. */
  function ClaimsOn(workers: seq<Worker>, id: nat): int {
    Sum(ClaimFlags(workers, id))
  }

  lemma ClaimsSet(workers: seq<Worker>, i: nat, w: Worker, id: nat)
    requires i < |workers|
    ensures ClaimsOn(workers[i := w], id) == ClaimsOn(workers, id) - ClaimFlag(workers[i], id) + ClaimFlag(w, id)
  {
    assert ClaimFlags(workers[i := w], id) == ClaimFlags(workers, id)[i := ClaimFlag(w, id)];
    SumUpdate(ClaimFlags(workers, id), i, ClaimFlag(w, id));
  }

  lemma ClaimsAtLeast(workers: seq<Worker>, i: nat, id: nat)
    requires i < |workers|
    ensures ClaimsOn(workers, id) >= ClaimFlag(workers[i], id)
  {
    SumLeast(ClaimFlags(workers, id), i);
  }

  lemma {:induction false} NoClaims(workers: seq<Worker>, id: nat)
    requires forall i | 0 <= i < |workers| :: ClaimFlag(workers[i], id) == 0
    ensures ClaimsOn(workers, id) == 0
  {
    if workers != [] {
      var shorter := workers[..|workers| - 1];
      NoClaims(shorter, id);
      assert ClaimFlags(workers, id)[..|workers| - 1] == ClaimFlags(shorter, id);
    }
  }

  /** One withdrawal and its payout: at most one call was made or is permitted, and none before dispatch. */
  predicate RowPay(w: Withdrawal, p: Payout, claims: int) {
    && claims >= 0 && p.calls + claims <= 1
    && (w.dispatch.None? ==> p.calls + claims == 0)
    && (p.state.Absent? <==> p.tx == "") && (p.tx != "" ==> p.calls == 1)
    && (w.providerTx != "" ==> w.providerTx == p.tx)
    && (w.status.Completed? ==> p.state.Settled?) && (w.status.Failed? ==> p.state.Lost?)
  }

  predicate WorkerOk(w: Worker, payouts: seq<Payout>) {
    match w
    case Idle => true
    case Answered(id, tx) => id < |payouts| && tx != "" && payouts[id].tx == tx
    case _ => w.item.id < |payouts|
  }

  predicate RowsPay(s: System) {
    |s.payouts| == |s.db.withdrawals|
    && forall i | 0 <= i < |s.payouts| :: RowPay(s.db.withdrawals[i], s.payouts[i], ClaimsOn(s.workers, i))
  }

  predicate WorkersOk(s: System) {
    forall i | 0 <= i < |s.workers| :: WorkerOk(s.workers[i], s.payouts)
  }

  predicate DistinctTx(payouts: seq<Payout>) {
    forall i, j | 0 <= i < j < |payouts| && payouts[i].tx != "" :: payouts[i].tx != payouts[j].tx
  }

  ghost predicate PayOk(k: World, s: System) {
    Ok(k, s.db) && RowsPay(s) && WorkersOk(s) && DistinctTx(s.payouts)
  }

  lemma ElsewhereOk(k: World, s: System, a: Action)
    requires WorldOk(k) && PayOk(k, s) && IsElsewhere(a)
    ensures PayOk(k, Next(k, s, Elsewhere(a)))
  {
    hide Ok, Step, ClaimsOn;
    var s' := Next(k, s, Elsewhere(a));
    StepOk(k, s.db, a);
    ElsewhereFrame(k, s.db, a);
    forall i | 0 <= i < |s'.payouts| ensures RowPay(s'.db.withdrawals[i], s'.payouts[i], ClaimsOn(s'.workers, i)) {
      if i < |s.payouts| {
        assert RowPay(s.db.withdrawals[i], s.payouts[i], ClaimsOn(s.workers, i));
        assert RowFrame(s.db.withdrawals[i], s'.db.withdrawals[i]);
      } else {
        assert BlankRow(s'.db.withdrawals[i]);
        NobodyClaims(s, i);
      }
    }
    forall i | 0 <= i < |s'.workers| ensures WorkerOk(s'.workers[i], s'.payouts) {
      assert WorkerOk(s.workers[i], s.payouts);
    }
  }

  lemma NobodyClaims(s: System, id: nat)
    requires WorkersOk(s) && id >= |s.payouts|
    ensures ClaimsOn(s.workers, id) == 0
  {
    forall i | 0 <= i < |s.workers| ensures ClaimFlag(s.workers[i], id) == 0 {
      assert WorkerOk(s.workers[i], s.payouts);
    }
    NoClaims(s.workers, id);
  }

  /** A worker moves without claiming or giving up a claim. */
  lemma MoveWorkerOk(k: World, s: System, i: nat, w: Worker)
    requires PayOk(k, s) && i < |s.workers| && !w.Claimed? && WorkerOk(w, s.payouts)
    ensures PayOk(k, SetWorker(s, i, w))
  {
    hide Ok, ClaimsOn;
    var s' := SetWorker(s, i, w);
    forall id | 0 <= id < |s.payouts| ensures RowPay(s.db.withdrawals[id], s.payouts[id], ClaimsOn(s'.workers, id)) {
      ClaimsSet(s.workers, i, w, id);
      ClaimsAtLeast(s.workers, i, id);
      assert RowPay(s.db.withdrawals[id], s.payouts[id], ClaimsOn(s.workers, id));
    }
  }

  lemma ClaimOk(k: World, s: System, i: nat, provider: string, checks: Checks)
    requires PayOk(k, s) && i < |s.workers| && s.workers[i].Ready?
    ensures PayOk(k, Next(k, s, Claim(i, provider, checks)))
  {
    hide Ok, ClaimsOn, Entitled, HasCapacity, HoldStands;
    var item := s.workers[i].item;
    var (db, reply) := BeginDispatch(k, s.db, provider, item, s.workers[i].evidence, checks);
    var s' := Next(k, s, Claim(i, provider, checks));
    BeginOk(k, s.db, provider, item, s.workers[i].evidence, checks);
    assert WorkerOk(s.workers[i], s.payouts);
    forall id | 0 <= id < |s.payouts| ensures RowPay(s'.db.withdrawals[id], s.payouts[id], ClaimsOn(s'.workers, id)) {
      ClaimsSet(s.workers, i, s'.workers[i], id);
      assert RowPay(s.db.withdrawals[id], s.payouts[id], ClaimsOn(s.workers, id));
    }
  }

  lemma CallOk(k: World, s: System, i: nat, accepted: bool, tx: string, heard: bool)
    requires PayOk(k, s) && i < |s.workers| && s.workers[i].Claimed? && s.workers[i].item.id < |s.payouts|
    ensures PayOk(k, Next(k, s, Call(i, accepted, tx, heard)))
  {
    hide Ok, ClaimsOn;
    var s' := Next(k, s, Call(i, accepted, tx, heard));
    var id := s.workers[i].item.id;
    ClaimsAtLeast(s.workers, i, id);
    forall j | 0 <= j < |s.payouts| ensures RowPay(s.db.withdrawals[j], s'.payouts[j], ClaimsOn(s'.workers, j)) {
      ClaimsSet(s.workers, i, s'.workers[i], j);
      assert RowPay(s.db.withdrawals[j], s.payouts[j], ClaimsOn(s.workers, j));
    }
    forall j | 0 <= j < |s'.workers| ensures WorkerOk(s'.workers[j], s'.payouts) {
      assert WorkerOk(s.workers[j], s.payouts);
      assert RowPay(s.db.withdrawals[id], s.payouts[id], ClaimsOn(s.workers, id));
    }
  }

  /** The provider's id reaches the row it belongs to, or nothing happens. */
  lemma MarkPayOk(k: World, s: System, id: nat, tx: string)
    requires PayOk(k, s) && id < |s.payouts| && tx == s.payouts[id].tx
    ensures PayOk(k, s.(db := MarkSubmitted(s.db, id, tx).0))
  {
    hide Ok, ClaimsOn, FindTx;
    MarkOk(k, s.db, id, tx);
    var s' := s.(db := MarkSubmitted(s.db, id, tx).0);
    forall i | 0 <= i < |s.payouts| ensures RowPay(s'.db.withdrawals[i], s'.payouts[i], ClaimsOn(s'.workers, i)) {
      assert RowPay(s.db.withdrawals[i], s.payouts[i], ClaimsOn(s.workers, i));
    }
  }

  lemma ReportOk(k: World, s: System, id: nat, status: ProviderStatus)
    requires PayOk(k, s) && id < |s.payouts| && Reported(s.payouts[id], status)
    ensures PayOk(k, s.(db := CustodyUpdate(k, s.db, s.payouts[id].tx, status).0))
  {
    hide Ok, ClaimsOn, FindTx;
    UpdateOk(k, s.db, s.payouts[id].tx, status);
    var s' := s.(db := CustodyUpdate(k, s.db, s.payouts[id].tx, status).0);
    var found := FindTx(s.db.withdrawals, s.payouts[id].tx);
    if found >= 0 && s.payouts[id].tx != "" {
      assert RowPay(s.db.withdrawals[found], s.payouts[found], ClaimsOn(s.workers, found));
      assert found == id;
    }
    forall i | 0 <= i < |s.payouts| ensures RowPay(s'.db.withdrawals[i], s'.payouts[i], ClaimsOn(s'.workers, i)) {
      assert RowPay(s.db.withdrawals[i], s.payouts[i], ClaimsOn(s.workers, i));
    }
  }

  /** The provider decides a payout it has taken. */
  lemma DecideOk(k: World, s: System, s': System, id: nat, state: PayoutState)
    requires PayOk(k, s) && id < |s.payouts| && s.payouts[id].state.Taken? && (state.Settled? || state.Lost?)
    requires s'.db == s.db && s'.workers == s.workers && s'.payouts == s.payouts[id := s.payouts[id].(state := state)]
    ensures PayOk(k, s')
  {
    hide Ok, ClaimsOn;
    forall i | 0 <= i < |s.payouts| ensures RowPay(s'.db.withdrawals[i], s'.payouts[i], ClaimsOn(s'.workers, i)) {
      assert RowPay(s.db.withdrawals[i], s.payouts[i], ClaimsOn(s.workers, i));
    }
    forall i | 0 <= i < |s'.workers| ensures WorkerOk(s'.workers[i], s'.payouts) {
      assert WorkerOk(s.workers[i], s.payouts);
    }
  }

  lemma NextOk(k: World, s: System, e: Event)
    requires WorldOk(k) && PayOk(k, s)
    ensures PayOk(k, Next(k, s, e))
  {
    hide Ok, Step, RowsPay, DistinctTx, VaultBalance, BeginDispatch, MarkSubmitted, CustodyUpdate;
    var s' := Next(k, s, e);
    match e
    case Elsewhere(a) => if IsElsewhere(a) { ElsewhereOk(k, s, a); }
    case Claim(i, provider, checks) => if i < |s.workers| && s.workers[i].Ready? { ClaimOk(k, s, i, provider, checks); }
    case Call(i, accepted, tx, heard) =>
      if i < |s.workers| && s.workers[i].Claimed? && s.workers[i].item.id < |s.payouts| {
        CallOk(k, s, i, accepted, tx, heard);
      }
    case Acknowledge(i) =>
      if i < |s.workers| && s.workers[i].Answered? {
        assert WorkerOk(s.workers[i], s.payouts);
        MarkPayOk(k, s, s.workers[i].id, s.workers[i].tx);
        MoveWorkerOk(k, s.(db := s'.db), i, Idle);
      }
    case Reconcile(id) => if id < |s.payouts| { MarkPayOk(k, s, id, s.payouts[id].tx); }
    case Report(id, status) => if id < |s.payouts| && Reported(s.payouts[id], status) { ReportOk(k, s, id, status); }
    case Pay(id, fee) => if s' != s { DecideOk(k, s, s', id, Settled); }
    case Fail(id) => if s' != s { DecideOk(k, s, s', id, Lost); }
    case Fund(vault, asset, amount) => SameFlows(k, s, s');
    case Crash(i) => if i < |s.workers| { MoveWorkerOk(k, s, i, Idle); }
    case Pick(i, id) =>
      PickedOk(k, s, i, id);
    case _ =>
      if s' != s {
        var i := e.worker;
        assert WorkerOk(s.workers[i], s.payouts);
        MoveWorkerOk(k, s, i, s'.workers[i]);
      }
  }

  lemma PickedOk(k: World, s: System, i: nat, id: nat)
    requires PayOk(k, s)
    ensures PayOk(k, Next(k, s, Pick(i, id)))
  {
    hide Ok;
    if i < |s.workers| && s.workers[i].Idle? && id < |s.db.withdrawals| {
      MoveWorkerOk(k, s, i, Picked(ItemOf(k, s.db, id)));
    }
  }

  lemma SameFlows(k: World, s: System, s': System)
    requires PayOk(k, s) && s'.db == s.db && s'.workers == s.workers && s'.payouts == s.payouts
    ensures PayOk(k, s')
  {
  }

  lemma {:induction false} RunPayOk(k: World, controls: Controls, workers: nat, events: seq<Event>)
    requires WorldOk(k)
    ensures PayOk(k, RunSystem(k, controls, workers, events))
  {
    hide Ok, Next;
    if events == [] {
      NewOk(k, controls);
    } else {
      RunPayOk(k, controls, workers, events[..|events| - 1]);
      NextOk(k, RunSystem(k, controls, workers, events[..|events| - 1]), events[|events| - 1]);
    }
  }

  // The promises.

  /** The provider is called at most once per withdrawal, and never before its dispatch was committed. */
  lemma PaidAtMostOnce(k: World, controls: Controls, workers: nat, events: seq<Event>, id: nat)
    requires WorldOk(k) && id < |RunSystem(k, controls, workers, events).payouts|
    ensures var s := RunSystem(k, controls, workers, events);
      && id < |s.db.withdrawals|
      && s.payouts[id].calls <= 1
      && (s.payouts[id].calls == 1 ==> s.db.withdrawals[id].dispatch.Some?)
  {
    hide RunSystem, Ok, ClaimsOn;
    RunPayOk(k, controls, workers, events);
    var s := RunSystem(k, controls, workers, events);
    assert RowPay(s.db.withdrawals[id], s.payouts[id], ClaimsOn(s.workers, id));
  }

  /**
   Held funds go back to the user in two cases only: the withdrawal was
   cancelled, and then it was never dispatched and the provider never called;
   or the provider reported that the payout failed.
   */
  lemma HeldReturnsOnlyAfterFailure(k: World, controls: Controls, workers: nat, events: seq<Event>, id: nat)
    requires WorldOk(k) && id < |RunSystem(k, controls, workers, events).payouts|
    ensures var s := RunSystem(k, controls, workers, events);
      && id < |s.db.withdrawals|
      && (CountOf(s.db.journals, WithdrawalCancel(id)) > 0 ==>
            s.db.withdrawals[id].dispatch.None? && s.payouts[id].calls == 0)
      && (CountOf(s.db.journals, WithdrawalRelease(id)) > 0 ==> s.payouts[id].state.Lost?)
      && (CountOf(s.db.journals, WithdrawalSettlement(id)) > 0 ==> s.payouts[id].state.Settled?)
  {
    hide RunSystem, CountOf, ClaimsOn, LedgerOk, HoldsOk, TradesOk, DepositsOk;
    RunPayOk(k, controls, workers, events);
    var s := RunSystem(k, controls, workers, events);
    assert RowPay(s.db.withdrawals[id], s.payouts[id], ClaimsOn(s.workers, id));
    assert WithdrawalOk(k, s.db.withdrawals[id]) && WithdrawalPosted(s.db.journals, id, s.db.withdrawals[id]);
  }

  /** What later events cannot change about a withdrawal. */
  predicate Stable(w: Withdrawal, w': Withdrawal) {
    && SameWithdrawal(w, w')
    && (w.providerTx != "" ==> w'.providerTx == w.providerTx)
    && (w.dispatch.Some? ==> w'.dispatch == w.dispatch && w'.reservation == w.reservation && !w'.status.Cancelled?)
    && (Terminal(w.status) ==> w'.status == w.status && w'.terminal == w.terminal)
  }

  predicate AllStable(k: World, db: DB, db': DB) {
    && |db'.withdrawals| >= |db.withdrawals|
    && forall i | 0 <= i < |db.withdrawals| ::
         WithdrawalOk(k, db.withdrawals[i]) ==> Stable(db.withdrawals[i], db'.withdrawals[i])
  }

  lemma BeginStable(k: World, db: DB, provider: string, item: Item, evidence: Option<Evidence>, checks: Checks)
    ensures AllStable(k, db, BeginDispatch(k, db, provider, item, evidence, checks).0)
  {
    hide Entitled, HasCapacity, HoldStands;
  }

  lemma MarkStable(k: World, db: DB, id: nat, tx: string)
    ensures AllStable(k, db, MarkSubmitted(db, id, tx).0)
  {
  }

  lemma UpdateStable(k: World, db: DB, tx: string, status: ProviderStatus)
    ensures AllStable(k, db, CustodyUpdate(k, db, tx, status).0)
  {
    hide FindTx;
  }

  lemma ElsewhereStable(k: World, db: DB, a: Action)
    requires IsElsewhere(a)
    ensures AllStable(k, db, Step(k, db, a))
  {
    hide Step;
    ElsewhereFrame(k, db, a);
    forall i | 0 <= i < |db.withdrawals| && WithdrawalOk(k, db.withdrawals[i])
      ensures Stable(db.withdrawals[i], Step(k, db, a).withdrawals[i])
    {
      assert RowFrame(db.withdrawals[i], Step(k, db, a).withdrawals[i]);
    }
  }

  lemma NextStable(k: World, s: System, e: Event, id: nat)
    requires PayOk(k, s) && id < |s.db.withdrawals|
    ensures var s' := Next(k, s, e); id < |s'.db.withdrawals| && Stable(s.db.withdrawals[id], s'.db.withdrawals[id])
  {
    hide LedgerOk, HoldsOk, TradesOk, DepositsOk, Step, ClaimsOn, VaultBalance, BeginDispatch, MarkSubmitted,
      CustodyUpdate, WithdrawalPosted;
    hide RowPay, RowsPay, WorkersOk, DistinctTx, See, Extend, Accepts, Reported;
    assert WithdrawalOk(k, s.db.withdrawals[id]);
    match e
    case Elsewhere(a) => if IsElsewhere(a) { ElsewhereStable(k, s.db, a); }
    case Claim(i, provider, checks) =>
      if i < |s.workers| && s.workers[i].Ready? {
        BeginStable(k, s.db, provider, s.workers[i].item, s.workers[i].evidence, checks);
      }
    case Acknowledge(i) =>
      if i < |s.workers| && s.workers[i].Answered? { MarkStable(k, s.db, s.workers[i].id, s.workers[i].tx); }
    case Reconcile(j) => if j < |s.payouts| { MarkStable(k, s.db, j, s.payouts[j].tx); }
    case Report(j, status) => if j < |s.payouts| { UpdateStable(k, s.db, s.payouts[j].tx, status); }
    case _ =>
  }

  lemma {:induction false} RunStable(k: World, controls: Controls, workers: nat, events: seq<Event>, n: nat, id: nat)
    requires WorldOk(k) && n <= |events| && id < |RunSystem(k, controls, workers, events[..n]).db.withdrawals|
    ensures id < |RunSystem(k, controls, workers, events).db.withdrawals|
    ensures Stable(RunSystem(k, controls, workers, events[..n]).db.withdrawals[id],
                   RunSystem(k, controls, workers, events).db.withdrawals[id])
    decreases |events|
  {
    hide PayOk, Next;
    if n == |events| {
      assert events[..n] == events;
      RunPayOk(k, controls, workers, events);
      NotBoth(k, RunSystem(k, controls, workers, events), id);
    } else {
      var shorter := events[..|events| - 1];
      assert shorter[..n] == events[..n];
      RunStable(k, controls, workers, shorter, n, id);
      RunPayOk(k, controls, workers, shorter);
      NextStable(k, RunSystem(k, controls, workers, shorter), events[|events| - 1], id);
    }
  }

  lemma NotBoth(k: World, s: System, id: nat)
    requires PayOk(k, s) && id < |s.db.withdrawals|
    ensures s.db.withdrawals[id].dispatch.Some? ==> !s.db.withdrawals[id].status.Cancelled?
  {
  }
}
