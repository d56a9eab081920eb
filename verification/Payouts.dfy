/** Paying out: any number of workers, a reconciler and the custody provider, interleaved. */
module Payouts {
  import opened Options
  import opened Ledger
  import opened Money
  import opened MoneyRows
  import opened MoneyRuns

  datatype PayoutState = Absent | Taken | Settled | Lost

  /** The provider's side of one withdrawal: how often it was called, and what became of the payout. */
  datatype Payout = Payout(calls: nat, tx: string, state: PayoutState)

  /** A vault balance as it was read, and which payouts had left the vault by then. */
  datatype Sighting = Sighting(amount: nat, paid: set<nat>)

  datatype Worker =
    | Idle
    | Picked(item: Item)
    | Looked(item: Item, feeAsset: string, asset: Sighting)
    | Ready(item: Item, evidence: Option<Evidence>, asset: Sighting, fee: Sighting)
    | Claimed(item: Item)
    | Answered(id: nat, tx: string)

  /** A movement of a vault's asset. */
  datatype Flow = Flow(vault: string, asset: string, delta: int)

  datatype System = System(db: DB, workers: seq<Worker>, payouts: seq<Payout>, flows: seq<Flow>)

  datatype Event =
    | Elsewhere(action: Action)
    | Pick(worker: nat, id: nat)
    | Look(worker: nat, feeAsset: string)
    | Estimate(worker: nat, fee: nat, maxFee: nat)
    | Skip(worker: nat)
    | Claim(worker: nat, provider: string, checks: Checks)
    | Call(worker: nat, accepted: bool, tx: string, heard: bool)
    | Acknowledge(worker: nat)
    | Crash(worker: nat)
    | Reconcile(id: nat)
    | Report(id: nat, status: ProviderStatus)
    | Pay(id: nat, fee: nat)
    | Fail(id: nat)
    | Fund(vault: string, asset: string, amount: nat)

  function VaultBalance(flows: seq<Flow>, vault: string, asset: string): int {
    if flows == [] then 0
    else
      var last := flows[|flows| - 1];
      VaultBalance(flows[..|flows| - 1], vault, asset) + if last.vault == vault && last.asset == asset then last.delta
        else 0
  }

  function PaidSet(payouts: seq<Payout>): set<nat> {
    set i | 0 <= i < |payouts| && payouts[i].state.Settled?
  }

  function See(s: System, vault: string, asset: string): Sighting {
    var balance := VaultBalance(s.flows, vault, asset);
    Sighting(if balance < 0 then 0 else balance, PaidSet(s.payouts))
  }

  /** Actions of anybody but the payout actors. */
  predicate IsElsewhere(a: Action) {
    !a.DoBegin? && !a.DoMark? && !a.DoUpdate?
  }

  function SetWorker(s: System, worker: nat, w: Worker): System
    requires worker < |s.workers|
  {
    s.(workers := s.workers[worker := w])
  }

  /** A new withdrawal is unknown to the provider. */
  function Extend(payouts: seq<Payout>, n: nat): seq<Payout> {
    if n <= |payouts| then payouts else payouts + seq(n - |payouts|, _ => Payout(0, "", Absent))
  }

  /** The provider takes the request; a new payout gets an id nobody else has. */
  predicate Accepts(s: System, id: nat, tx: string) {
    && id < |s.payouts| && s.payouts[id].state.Absent? && tx != ""
    && forall i | 0 <= i < |s.payouts| :: s.payouts[i].tx != tx
  }

  /** A status the provider reports for this payout: a final one only when it is final. */
  predicate Reported(p: Payout, status: ProviderStatus) {
    (status.Finished? ==> p.state.Settled?) && (status.Broken? ==> p.state.Lost?)
  }

  ghost function Next(k: World, s: System, e: Event): System {
    match e
    case Elsewhere(a) =>
      if !IsElsewhere(a) then s
      else
        var db := Step(k, s.db, a);
        s.(db := db, payouts := Extend(s.payouts, |db.withdrawals|))
    case Pick(i, id) =>
      if i < |s.workers| && s.workers[i].Idle? && id < |s.db.withdrawals|
        then SetWorker(s, i, Picked(ItemOf(k, s.db, id))) else s
    case Look(i, feeAsset) =>
      if i < |s.workers| && s.workers[i].Picked? then
        var item := s.workers[i].item;
        SetWorker(s, i, Looked(item, feeAsset, See(s, item.vault, item.custodyAsset)))
      else s
    case Estimate(i, fee, maxFee) =>
      if i < |s.workers| && s.workers[i].Looked? then
        var w := s.workers[i];
        var feeSeen := if w.feeAsset == w.item.custodyAsset then w.asset else See(s, w.item.vault, w.feeAsset);
        SetWorker(s, i,
            Ready(w.item, Some(Evidence(w.feeAsset, w.asset.amount, feeSeen.amount, fee, maxFee)), w.asset, feeSeen))
      else s
    case Skip(i) =>
      if i < |s.workers| && s.workers[i].Picked? then
        SetWorker(s, i, Ready(s.workers[i].item, None, Sighting(0, {}), Sighting(0, {})))
      else s
    case Claim(i, provider, checks) =>
      if i < |s.workers| && s.workers[i].Ready? then
        var (db, reply) := BeginDispatch(k, s.db, provider, s.workers[i].item, s.workers[i].evidence, checks);
        SetWorker(s.(db := db), i, if reply.Done? then Claimed(s.workers[i].item) else Idle)
      else s
    case Call(i, accepted, tx, heard) =>
      if i < |s.workers| && s.workers[i].Claimed? && s.workers[i].item.id < |s.payouts| then
        var id := s.workers[i].item.id;
        var p := s.payouts[id].(calls := s.payouts[id].calls + 1);
        var taken := accepted && Accepts(s, id, tx);
        SetWorker(s.(payouts := s.payouts[id := if taken then p.(tx := tx, state := Taken) else p]), i,
                  if taken && heard then Answered(id, tx) else Idle)
      else s
    case Acknowledge(i) =>
      if i < |s.workers| && s.workers[i].Answered? then
        SetWorker(s.(db := MarkSubmitted(s.db, s.workers[i].id, s.workers[i].tx).0), i, Idle)
      else s
    case Crash(i) => if i < |s.workers| then SetWorker(s, i, Idle) else s
    case Reconcile(id) => if id < |s.payouts| then s.(db := MarkSubmitted(s.db, id, s.payouts[id].tx).0) else s
    case Report(id, status) =>
      if id < |s.payouts| && Reported(s.payouts[id], status)
        then s.(db := CustodyUpdate(k, s.db, s.payouts[id].tx, status).0) else s
    case Pay(id, fee) =>
      if id < |s.payouts| && id < |s.db.withdrawals| && s.payouts[id].state.Taken?
         && s.db.withdrawals[id].reservation.Some? && fee <= s.db.withdrawals[id].reservation.value.fee
      then
        var r := s.db.withdrawals[id].reservation.value;
        s.(payouts := s.payouts[id := s.payouts[id].(state := Settled)],
           flows := s.flows + [Flow(r.vault, r.asset, 0 - r.amount), Flow(r.vault, r.feeAsset, 0 - fee)])
      else if id < |s.payouts| && id < |s.db.withdrawals| && s.payouts[id].state.Taken?
        && s.db.withdrawals[id].reservation.None?
      then s.(payouts := s.payouts[id := s.payouts[id].(state := Settled)])
      else s
    case Fail(id) =>
      if id < |s.payouts| && s.payouts[id].state.Taken?
        then s.(payouts := s.payouts[id := s.payouts[id].(state := Lost)]) else s
    case Fund(vault, asset, amount) => s.(flows := s.flows + [Flow(vault, asset, amount)])
  }

  function Begin(controls: Controls, workers: nat): System {
    System(NewDB(controls), seq(workers, _ => Idle), [], [])
  }

  ghost function RunSystem(k: World, controls: Controls, workers: nat, events: seq<Event>): System {
    if events == [] then Begin(controls, workers)
    else Next(k, RunSystem(k, controls, workers, events[..|events| - 1]), events[|events| - 1])
  }

  // What the other actions leave alone.

  /** The row as far as payouts are concerned; an undispatched row may still be approved or cancelled. */
  predicate RowFrame(w: Withdrawal, w': Withdrawal) {
    && SameWithdrawal(w, w') && w'.dispatch == w.dispatch && w'.reservation == w.reservation
    && w'.terminal == w.terminal && w'.providerTx == w.providerTx
    && (w'.status == w.status || (w.status.PendingApproval? && (w'.status.Approved? || w'.status.Cancelled?)))
  }

  predicate BlankRow(w: Withdrawal) {
    w.dispatch.None? && w.reservation.None? && w.terminal.None? && w.providerTx == ""
      && (w.status.PendingApproval? || w.status.Approved?)
  }

  predicate Frame(db: DB, db': DB) {
    && |db.withdrawals| <= |db'.withdrawals| <= |db.withdrawals| + 1
    && (forall i | 0 <= i < |db.withdrawals| :: RowFrame(db.withdrawals[i], db'.withdrawals[i]))
    && (forall i | |db.withdrawals| <= i < |db'.withdrawals| :: BlankRow(db'.withdrawals[i]))
  }

  predicate IsAsking(a: Action) {
    a.DoRequest? || a.DoApprove? || a.DoCancel?
  }

  lemma AskingFrame(k: World, db: DB, a: Action)
    requires IsAsking(a)
    ensures Frame(db, Step(k, db, a))
  {
    hide Balance, Entitled, FindKey;
  }

  lemma OtherFrame(k: World, db: DB, a: Action)
    requires IsElsewhere(a) && !IsAsking(a)
    ensures Frame(db, Step(k, db, a))
  {
    hide Balance, Entitled, HoldStands, TradingAllowed, FindDeposit, FindKey;
  }

  lemma ElsewhereFrame(k: World, db: DB, a: Action)
    requires IsElsewhere(a)
    ensures Frame(db, Step(k, db, a))
  {
    hide Step, Frame;
    if IsAsking(a) {
      AskingFrame(k, db, a);
    } else {
      OtherFrame(k, db, a);
    }
  }
}
