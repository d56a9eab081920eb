/** The transactions, the payout worker and the reconciler as they run. */
module Managers {
  import opened Arithmetic
  import opened Options
  import opened Ledger
  import opened Money
  import opened MoneyLaws
  import opened MoneyRuns
  import opened Idempotency

  /** A limit outside 1..100 means 25. */
  function Limit(limit: int): nat {
    if limit < 1 || limit > 100 then 25 else limit
  }

  /** Waiting for a worker: approved, not dispatched, not known to the provider. */
  predicate Waiting(w: Withdrawal) {
    w.status.Approved? && w.providerTx == "" && w.dispatch.None?
  }

  /** Reserved, and nothing final was recorded. */
  predicate Unresolved(w: Withdrawal) {
    w.reservation.Some? && w.terminal.None?
  }

  /** Unresolved, and dispatched to this provider. */
  predicate Candidate(w: Withdrawal, provider: string) {
    Unresolved(w) && w.dispatch == Some(provider)
  }

  /** What the provider knows of a withdrawal. */
  datatype Finding = Unreachable | Missing | Found(tx: string, status: ProviderStatus)

  /** What was seen of a withdrawal at the provider, and when, in seconds. */
  datatype Observed = Observed(withdrawal: nat, finding: Finding, at: int)

  const PAUSE: nat := 30

  /** Not looked at within the last half minute. */
  predicate Due(observations: seq<Observed>, id: nat, now: int) {
    forall i | 0 <= i < |observations| && observations[i].withdrawal == id :: observations[i].at <= now - PAUSE
  }

  class Manager {
    const k: World

    /** The committed tables. */
    var db: DB
    var keys: Keys
    var observations: seq<Observed>

    constructor (k: World, db: DB)
      ensures this.k == k && this.db == db && keys == NO_KEYS && observations == []
    {
      this.k := k;
      this.db := db;
      keys, observations := NO_KEYS, [];
    }

    method RequestWithdrawal(input: WithdrawalInput, checks: Checks) returns (reply: Reply)
      modifies this`db
      ensures (db, reply) == Money.RequestWithdrawal(k, old(db), input, checks)
      ensures Leaves(old(db), db, NO_ROWS)
      ensures Ok(k, old(db)) ==> Ok(k, db)
    {
      hide Ok;
      if Ok(k, db) {
        RequestOk(k, db, input, checks);
      }
      hide Balance, Entitled, FindKey;
      if input.amount == 0 || input.key == "" {
        return Refused;
      }
      var tx := db;
      if !tx.controls.withdrawalsEnabled {
        return Refused;
      }
      var known := FindKey(tx.withdrawals, input.key);
      if known >= 0 {
        var w := tx.withdrawals[known];
        if w.user != input.user || w.account != input.account || w.asset != input.asset
           || w.destination != input.destination || w.amount != input.amount {
          return Refused;
        }
        return Duplicate(known);
      }
      if !checks.asset || !Entitled(k, tx, input.user, input.asset, input.amount) {
        return Refused;
      }
      if !checks.customer || k.owner(input.account) != Some(input.user) || !checks.account {
        return Refused;
      }
      if Balance(tx.journals, input.account, input.asset, Available) < input.amount {
        return Refused;
      }
      var status := PendingApproval;
      if tx.controls.automatic {
        status := Approved;
      }
      var id := |tx.withdrawals|;
      tx := tx.(withdrawals := tx.withdrawals + [Withdrawal(
        input.user, input.account, input.asset, input.destination, input.amount, input.key, status, "", {}, None, None,
          None)]);
      tx := tx.(journals := tx.journals
        + [Journal(WithdrawalHold(id), HoldPostings(input.account, input.asset, input.amount))]);
      db := tx;
      reply := Created(id);
    }

    method ApproveWithdrawal(approver: string, id: nat, checks: Checks) returns (reply: Reply)
      modifies this`db
      ensures (db, reply) == Money.ApproveWithdrawal(old(db), approver, id, checks)
      ensures Leaves(old(db), db, NO_ROWS.(withdrawal := id))
      ensures Ok(k, old(db)) ==> Ok(k, db)
    {
      hide Ok;
      if Ok(k, db) {
        ApproveOk(k, db, approver, id, checks);
      }
      var tx := db;
      if !tx.controls.withdrawalsEnabled || !checks.role || id >= |tx.withdrawals| {
        return Refused;
      }
      var w := tx.withdrawals[id];
      if !w.status.PendingApproval? || !checks.customer || approver in w.approvals {
        return Refused;
      }
      w := w.(approvals := w.approvals + {approver});
      if |w.approvals| >= 2 {
        w := w.(status := Approved);
      }
      db := tx.(withdrawals := tx.withdrawals[id := w]);
      reply := Done;
    }

    method CancelWithdrawal(user: string, id: nat) returns (reply: Reply)
      modifies this`db
      ensures (db, reply) == Money.CancelWithdrawal(old(db), user, id)
      ensures Leaves(old(db), db, NO_ROWS.(withdrawal := id))
      ensures Ok(k, old(db)) ==> Ok(k, db)
    {
      hide Ok;
      if Ok(k, db) {
        CancelOk(k, db, user, id);
      }
      var tx := db;
      if id >= |tx.withdrawals| || tx.withdrawals[id].user != user {
        return Refused;
      }
      var w := tx.withdrawals[id];
      if !w.status.PendingApproval? {
        return Refused;
      }
      tx := tx.(withdrawals := tx.withdrawals[id := w.(status := Cancelled)]);
      tx := tx.(journals := tx.journals
        + [Journal(WithdrawalCancel(id), UnholdPostings(w.account, w.asset, w.amount))]);
      db := tx;
      reply := Done;
    }

    /** Room in the vault for the amount and the fee, each asset once. */
    method CheckCapacity(tx: DB, item: Item, e: Evidence) returns (ok: bool)
      ensures ok == HasCapacity(tx, item, e)
    {
      hide OpenCapacity;
      if e.feeRequired > e.maxFee {
        return false;
      }
      var assetOpen := OpenCapacity(tx.withdrawals, item.vault, item.custodyAsset);
      if item.custodyAsset == e.feeAsset {
        if e.assetAvailable != e.feeAvailable {
          return false;
        }
        var required := assetOpen + item.amount;
        required := required + e.feeRequired;
        return required <= e.assetAvailable;
      }
      if assetOpen + item.amount > e.assetAvailable {
        return false;
      }
      var feeOpen := OpenCapacity(tx.withdrawals, item.vault, e.feeAsset);
      return feeOpen + e.feeRequired <= e.feeAvailable;
    }

    /** Commits the one permission to call the provider. */
    method BeginDispatch(provider: string, item: Item, evidence: Option<Evidence>, checks: Checks)
      returns (reply: Reply)
      modifies this`db
      ensures (db, reply) == Money.BeginDispatch(k, old(db), provider, item, evidence, checks)
      ensures Leaves(old(db), db, NO_ROWS.(withdrawal := item.id))
      ensures Ok(k, old(db)) ==> Ok(k, db)
    {
      hide Ok;
      if Ok(k, db) {
        BeginOk(k, db, provider, item, evidence, checks);
      }
      hide Entitled, HoldStands, HasCapacity;
      var tx := db;
      if provider == "" || !tx.controls.withdrawalsEnabled || item.id >= |tx.withdrawals| {
        return Refused;
      }
      var w := tx.withdrawals[item.id];
      if !Entitled(k, tx, w.user, w.asset, 0) {
        return Refused;
      }
      if !w.status.Approved? || w.providerTx != "" || !checks.asset || !checks.wallet {
        return NotClaimed;
      }
      if item != ItemOf(k, tx, item.id) {
        return Refused;
      }
      if w.dispatch.Some? {
        return NotClaimed;
      }
      if !checks.customer || !checks.account {
        return Refused;
      }
      if !HoldStands(tx, item.id) {
        return Refused;
      }
      if Enforced(tx) && evidence.None? {
        return Refused;
      }
      var reservation: Option<Reservation> := None;
      if evidence.Some? {
        if !checks.route || !checks.timely {
          return Refused;
        }
        var room := CheckCapacity(tx, item, evidence.value);
        if !room {
          return Refused;
        }
        reservation := Some(Reservation(item.vault, item.custodyAsset, item.amount, evidence.value.feeAsset,
                                        evidence.value.feeRequired));
      }
      db := tx.(withdrawals := tx.withdrawals[item.id := w.(dispatch := Some(provider), reservation := reservation)]);
      reply := Done;
    }

    method MarkSubmitted(id: nat, providerTx: string) returns (reply: Reply)
      modifies this`db
      ensures (db, reply) == Money.MarkSubmitted(old(db), id, providerTx)
      ensures Leaves(old(db), db, NO_ROWS.(withdrawal := id))
      ensures Ok(k, old(db)) ==> Ok(k, db)
    {
      hide Ok;
      if Ok(k, db) {
        MarkOk(k, db, id, providerTx);
      }
      hide FindTx;
      var tx := db;
      if providerTx == "" || id >= |tx.withdrawals| {
        return Refused;
      }
      var w := tx.withdrawals[id];
      if w.status.Approved? && w.providerTx == "" {
        if FindTx(tx.withdrawals, providerTx) >= 0 {
          return Refused;
        }
        db := tx.(withdrawals := tx.withdrawals[id := w.(status := Submitted, providerTx := providerTx)]);
        return Done;
      }
      if w.providerTx != providerTx {
        return Refused;
      }
      reply := Done;
    }

    method CustodyUpdate(providerTx: string, status: ProviderStatus) returns (reply: Reply)
      modifies this`db
      ensures (db, reply) == Money.CustodyUpdate(k, old(db), providerTx, status)
      ensures Leaves(old(db), db, NO_ROWS.(withdrawal := FindTx(old(db).withdrawals, providerTx)))
      ensures Ok(k, old(db)) ==> Ok(k, db)
    {
      hide Ok;
      if Ok(k, db) {
        UpdateOk(k, db, providerTx, status);
      }
      hide FindTx;
      if status.Unknown? || providerTx == "" {
        return Refused;
      }
      var tx := db;
      var id := FindTx(tx.withdrawals, providerTx);
      if id < 0 || Terminal(tx.withdrawals[id].status) {
        return Refused;
      }
      if status.InFlight? {
        return Done;
      }
      var w := tx.withdrawals[id];
      var postings, source, outcome;
      if status.Finished? {
        w := w.(status := Completed);
        source, postings := WithdrawalSettlement(id),
          Move(w.asset, w.amount, w.account, Held, k.clearing(w.asset), Available);
        outcome := Consumed;
      } else {
        w := w.(status := Failed);
        source, postings := WithdrawalRelease(id), UnholdPostings(w.account, w.asset, w.amount);
        outcome := Released;
      }
      if w.reservation.Some? && w.terminal.None? {
        w := w.(terminal := Some(outcome));
      }
      tx := tx.(withdrawals := tx.withdrawals[id := w]);
      db := tx.(journals := tx.journals + [Journal(source, postings)]);
      reply := Done;
    }

    method ObserveDeposit(o: Observation, matched: bool, funding: Option<string>) returns (reply: Reply)
      modifies this`db
      ensures (db, reply) == Money.ObserveDeposit(k, old(db), o, matched, funding)
      ensures Leaves(old(db), db, NO_ROWS.(deposit := FindDeposit(old(db).deposits, o.tx, o.index)))
      ensures WorldOk(k) && Ok(k, old(db)) ==> Ok(k, db)
    {
      hide Ok, FindDeposit, Leaves;
      if WorldOk(k) && Ok(k, db) {
        ObserveOk(k, db, o, matched, funding);
      }
      ObserveLeaves(k, db, o, matched, funding);
      if !matched {
        return Refused;
      }
      var tx := db;
      var i := FindDeposit(tx.deposits, o.tx, o.index);
      var status := Confirming;
      if o.failed {
        status := Reorged;
      } else if o.confirmations >= o.required {
        status := PendingReview;
      }
      var id := |tx.deposits|;
      if i < 0 {
        tx := tx.(deposits := tx.deposits
          + [Deposit(o.tx, o.index, o.user, o.asset, o.amount, o.confirmations, o.required, status, NotStarted,
                     o.hash)]);
      } else {
        id := i;
        var d := tx.deposits[i];
        d := d.(confirmations := Max(d.confirmations, o.confirmations));
        if o.hash != "" {
          d := d.(hash := o.hash);
        }
        if !Absorbing(d.status) {
          d := d.(status := status);
        }
        tx := tx.(deposits := tx.deposits[i := d]);
      }
      if status.PendingReview? && tx.deposits[id].status.PendingReview? && tx.deposits[id].risk.NotStarted? {
        var row := tx.deposits[id];
        if funding.None? || k.owner(funding.value) != Some(row.user) || row.amount == 0 {
          return Refused;
        }
        tx := tx.(deposits := tx.deposits[id := row.(status := Credited, risk := RiskApproved)]);
        tx := tx.(journals := tx.journals + [Journal(DepositCredit(id),
          Move(row.asset, row.amount, k.clearing(row.asset), Available, funding.value, Available))]);
      }
      db := tx;
      reply := Done;
    }

    method CreditApprovedDeposit(id: nat, checks: Checks, funding: Option<string>) returns (reply: Reply)
      modifies this`db
      ensures (db, reply) == ApproveDeposit(k, old(db), id, checks, funding)
      ensures Leaves(old(db), db, NO_ROWS.(deposit := id))
      ensures WorldOk(k) && Ok(k, old(db)) ==> Ok(k, db)
    {
      hide Ok;
      if WorldOk(k) && Ok(k, db) {
        CreditOk(k, db, id, checks, funding);
      }
      var tx := db;
      if !checks.role || id >= |tx.deposits| {
        return Refused;
      }
      var d := tx.deposits[id];
      if !d.status.PendingReview? || !(d.risk.NotStarted? || d.risk.RiskPending?) || !checks.customer {
        return Refused;
      }
      if funding.None? || k.owner(funding.value) != Some(d.user) || d.amount == 0 {
        return Refused;
      }
      tx := tx.(deposits := tx.deposits[id := d.(status := Credited, risk := RiskApproved)]);
      tx := tx.(journals := tx.journals + [Journal(DepositCredit(id),
        Move(d.asset, d.amount, k.clearing(d.asset), Available, funding.value, Available))]);
      db := tx;
      reply := Done;
    }

    /** A known key is answered with the first transfer, whatever else the request says. */
    method CreateInternalTransfer(key: string, user: string, from: string, to: string, asset: string, amount: nat,
                                  checks: Checks)
      returns (reply: Reply)
      modifies this
      ensures (db, keys, reply) == TransferOnce(k, old(db), old(keys), key, user, from, to, asset, amount, checks)
      ensures Leaves(old(db), db, NO_ROWS)
      ensures Ok(k, old(db)) ==> Ok(k, db)
    {
      hide Balance, Ok;
      if Ok(k, db) {
        TransferOk(k, db, user, from, to, asset, amount, checks);
      }
      if amount == 0 || key == "" {
        return Refused;
      }
      if key in keys.transfers {
        return Duplicate(keys.transfers[key]);
      }
      var tx := db;
      if !checks.asset || !checks.account || k.owner(from) != Some(user) {
        return Refused;
      }
      var available := Balance(tx.journals, from, asset, Available);
      if available < amount || key in keys.conversions {
        return Refused;
      }
      var out := Posting(from, asset, Available, false, amount);
      var into := Posting(to, asset, Available, true, amount);
      keys := keys.(transfers := keys.transfers[key := |tx.journals|]);
      db := tx.(journals := tx.journals + [Journal(InternalTransfer, [out, into])]);
      reply := Done;
    }

    /** A known key is answered with the first conversion. */
    method ConfirmConversion(key: string, enabled: bool, user: string, id: nat, checks: Checks) returns (reply: Reply)
      modifies this
      ensures (db, keys, reply) == ConvertOnce(k, old(db), old(keys), key, enabled, user, id, checks)
      ensures Leaves(old(db), db, NO_ROWS.(quote := id))
      ensures WorldOk(k) && Ok(k, old(db)) ==> Ok(k, db)
    {
      hide Balance, Ok;
      if WorldOk(k) && Ok(k, db) {
        ConvertOk(k, db, user, id, checks);
      }
      if user == "" || key == "" || !enabled {
        return Refused;
      }
      if key in keys.conversions {
        return Duplicate(keys.conversions[key]);
      }
      var tx := db;
      if id >= |tx.quotes| || tx.quotes[id].user != user || tx.quotes[id].confirmed {
        return Refused;
      }
      var q := tx.quotes[id];
      if !checks.timely || !checks.asset || !checks.account || k.owner(q.account) != Some(user) {
        return Refused;
      }
      var gross := q.output + q.fee;
      var customer := Balance(tx.journals, q.account, q.from, Available);
      var treasury := Balance(tx.journals, k.treasury(q.to), q.to, Available);
      if customer < q.input || treasury < gross || q.input == 0 || q.output == 0 || q.fee == 0
        || key in keys.transfers {
        return Refused;
      }
      var paid := [Posting(q.account, q.from, Available, false, q.input),
                   Posting(k.treasury(q.from), q.from, Available, true, q.input)];
      var sold := [Posting(k.treasury(q.to), q.to, Available, false, gross),
                   Posting(q.account, q.to, Available, true, q.output),
                   Posting(k.conversionFees(q.to), q.to, Available, true, q.fee)];
      assert paid + sold == ConversionPostings(k, q);
      keys := keys.(conversions := keys.conversions[key := |tx.journals|]);
      tx := tx.(quotes := tx.quotes[id := q.(confirmed := true)]);
      db := tx.(journals := tx.journals + [Journal(Conversion, paid + sold)]);
      reply := Done;
    }

    /** The waiting withdrawals, oldest first, at most `limit` of them. */
    method ApprovedWithdrawals(limit: int) returns (items: seq<Item>)
      ensures |items| <= if 1 <= limit <= 100 then limit else 25
      ensures forall i | 0 <= i < |items| ::
        && items[i].id < |db.withdrawals| && items[i] == ItemOf(k, db, items[i].id)
        && Waiting(db.withdrawals[items[i].id])
      ensures forall i, j | 0 <= i < j < |items| :: items[i].id < items[j].id
      ensures |items| < Limit(limit) ==> forall id | 0 <= id < |db.withdrawals| && Waiting(db.withdrawals[id]) ::
        exists i :: 0 <= i < |items| && items[i].id == id
    {
      hide Waiting;
      items := [];
      var id: nat := 0;
      while id < |db.withdrawals| && |items| < Limit(limit)
        invariant id <= |db.withdrawals| && |items| <= Limit(limit)
        invariant forall i | 0 <= i < |items| ::
          items[i].id < id && items[i] == ItemOf(k, db, items[i].id) && Waiting(db.withdrawals[items[i].id])
        invariant forall i, j | 0 <= i < j < |items| :: items[i].id < items[j].id
        invariant forall j | 0 <= j < id && Waiting(db.withdrawals[j]) :: exists i ::
          0 <= i < |items| && items[i].id == j
      {
        if Waiting(db.withdrawals[id]) {
          ghost var before := items;
          items := items + [ItemOf(k, db, id)];
          assert items[|before|].id == id && forall i | 0 <= i < |before| :: items[i] == before[i];
        }
        id := id + 1;
      }
    }

    /** This provider's reserved withdrawals without a final outcome that are due for a look, oldest first. */
    method ReconciliationCandidates(provider: string, limit: int, now: int) returns (ids: seq<nat>)
      ensures |ids| <= if 1 <= limit <= 100 then limit else 25
      ensures forall i | 0 <= i < |ids| ::
        ids[i] < |db.withdrawals| && Candidate(db.withdrawals[ids[i]], provider) && Due(observations, ids[i], now)
      ensures forall i, j | 0 <= i < j < |ids| :: ids[i] < ids[j]
      ensures forall id | 0 <= id < |db.withdrawals| && Candidate(db.withdrawals[id], provider)
        && Due(observations, id, now) ::
        id in ids || (|ids| == Limit(limit) && forall i | 0 <= i < |ids| :: ids[i] < id)
    {
      hide Due;
      ids := [];
      var id: nat := 0;
      while id < |db.withdrawals| && |ids| < Limit(limit)
        invariant id <= |db.withdrawals| && |ids| <= Limit(limit)
        invariant forall i | 0 <= i < |ids| ::
          ids[i] < id && Candidate(db.withdrawals[ids[i]], provider) && Due(observations, ids[i], now)
        invariant forall i, j | 0 <= i < j < |ids| :: ids[i] < ids[j]
        invariant forall j | 0 <= j < id && Candidate(db.withdrawals[j], provider) && Due(observations, j, now) ::
          j in ids
      {
        if Candidate(db.withdrawals[id], provider) && Due(observations, id, now) {
          ids := ids + [id];
        }
        id := id + 1;
      }
    }

    /** Done if recorded, NotClaimed if a final outcome came first, Refused if it is not this provider's. */
    method RecordObservation(id: nat, provider: string, finding: Finding, now: int) returns (reply: Reply)
      modifies this`observations
      ensures reply.Done? <==> id < |db.withdrawals| && Candidate(db.withdrawals[id], provider)
      ensures observations == old(observations) + if reply.Done? then [Observed(id, finding, now)] else []
      ensures reply.NotClaimed? ==> id < |db.withdrawals| && db.withdrawals[id].terminal.Some?
    {
      if id >= |db.withdrawals| || db.withdrawals[id].dispatch != Some(provider)
        || db.withdrawals[id].reservation.None? {
        return Refused;
      }
      if db.withdrawals[id].terminal.Some? {
        return NotClaimed;
      }
      observations := observations + [Observed(id, finding, now)];
      reply := Done;
    }
  }

  /** What looking at the custody side before a dispatch came to. */
  datatype Sight = Blind | NoRoute | Saw(evidence: Evidence)

  /**
   The calls of a pass: each for a withdrawal that was not dispatched before and
   is now, none twice; every other withdrawal is as it was.
   */
  predicate OncePerDispatch(made: seq<nat>, before: DB, after: DB, provider: string) {
    && |after.withdrawals| == |before.withdrawals|
    && (forall i | 0 <= i < |made| ::
          && made[i] < |before.withdrawals| && before.withdrawals[made[i]].dispatch.None?
          && after.withdrawals[made[i]].dispatch == Some(provider))
    && (forall i, j | 0 <= i < j < |made| :: made[i] != made[j])
    && (forall id | 0 <= id < |before.withdrawals| && id !in made :: after.withdrawals[id] == before.withdrawals[id])
  }

  /** Only this row differs. */
  predicate OnlyRow(db: DB, db': DB, id: nat) {
    |db'.withdrawals| == |db.withdrawals|
    && forall i | 0 <= i < |db.withdrawals| && i != id :: db'.withdrawals[i] == db.withdrawals[i]
  }

  lemma OnceMore(made: seq<nat>, before: DB, mid: DB, after: DB, provider: string, id: nat)
    requires OncePerDispatch(made, before, mid, provider) && OnlyRow(mid, after, id) && id !in made
    requires id < |mid.withdrawals| && mid.withdrawals[id].dispatch.None?
      && after.withdrawals[id].dispatch == Some(provider)
    ensures OncePerDispatch(made + [id], before, after, provider)
  {
  }

  lemma NothingMade(db: DB, provider: string)
    ensures OncePerDispatch([], db, db, provider)
  {
  }

  class Worker {
    const data: Manager
    const provider: string

    /** The withdrawals the provider was asked to pay, in order. */
    var calls: seq<nat>

    constructor (data: Manager, provider: string)
      ensures this.data == data && this.provider == provider && calls == []
    {
      this.data := data;
      this.provider := provider;
      calls := [];
    }

    /** Claims one withdrawal and, if that succeeds, calls the provider and records its answer. */
    method Handle(item: Item, evidence: Option<Evidence>, pay: Item -> Option<string>, checks: Checks)
      returns (called: bool, ok: bool)
      requires Ok(data.k, data.db)
      modifies this, data
      ensures Ok(data.k, data.db) && OnlyRow(old(data.db), data.db, item.id)
      ensures calls == old(calls) + if called then [item.id] else []
      ensures called ==> item.id < |old(data.db).withdrawals| && old(data.db).withdrawals[item.id].dispatch.None?
      ensures called ==> item.id < |data.db.withdrawals| && data.db.withdrawals[item.id].dispatch == Some(provider)
      ensures !called ==> data.db == old(data.db)
    {
      hide Ok, Money.BeginDispatch, Money.MarkSubmitted;
      called, ok := false, false;
      BeginOk(data.k, data.db, provider, item, evidence, checks);
      BeginTouches(data.k, data.db, provider, item, evidence, checks);
      var claimed := data.BeginDispatch(provider, item, evidence, checks);
      if claimed.Refused? {
        return;
      }
      if !claimed.Done? {
        ok := true;
        return;
      }
      called := true;
      calls := calls + [item.id];
      var answer := pay(item);
      if answer.None? || answer.value == "" {
        return;
      }
      MarkOk(data.k, data.db, item.id, answer.value);
      MarkTouches(data.db, item.id, answer.value);
      var marked := data.MarkSubmitted(item.id, answer.value);
      ok := !marked.Refused?;
    }

    /** One pass: observe, claim, call, record; any error ends it. */
    method RunOnce(look: Item -> Sight, pay: Item -> Option<string>, checks: Item -> Checks)
      returns (processed: nat, ok: bool)
      requires Ok(data.k, data.db)
      modifies this, data
      ensures Ok(data.k, data.db)
      ensures old(calls) <= calls && OncePerDispatch(calls[|old(calls)|..], old(data.db), data.db, provider)
      ensures processed <= |calls| - |old(calls)| <= processed + 1
      ensures ok ==> processed == |calls| - |old(calls)|
    {
      hide Ok, Waiting, ItemOf, OncePerDispatch, OnlyRow;
      processed, ok := 0, false;
      NothingMade(data.db, provider);
      assert calls[|old(calls)|..] == [];
      if provider == "" {
        return;
      }
      var items := data.ApprovedWithdrawals(25);
      ghost var made: seq<nat> := [];
      var n: nat := 0;
      while n < |items|
        invariant n <= |items| && Ok(data.k, data.db)
        invariant calls == old(calls) + made && processed == |made|
        invariant OncePerDispatch(made, old(data.db), data.db, provider)
        invariant forall id | id in made :: n < |items| ==> id < items[n].id
      {
        var item := items[n];
        var sight := look(item);
        assert calls[|old(calls)|..] == made;
        if sight.Blind? {
          return;
        }
        ghost var mid := data.db;
        var called, fine := Handle(item, if sight.NoRoute? then None else Some(sight.evidence), pay, checks(item));
        if called {
          OnceMore(made, old(data.db), mid, data.db, provider, item.id);
          made := made + [item.id];
        }
        assert calls[|old(calls)|..] == made;
        if !fine {
          return;
        }
        if called {
          processed := processed + 1;
        }
        n := n + 1;
      }
      assert calls[|old(calls)|..] == made;
      ok := true;
    }
  }

  /** The row says what the provider reported last. */
  predicate Resolved(w: Withdrawal, f: Finding) {
    f.Found? ==>
      && w.providerTx == f.tx
      && (f.status.Finished? ==> w.status.Completed? && w.terminal == Some(Consumed))
      && (f.status.Broken? ==> w.status.Failed? && w.terminal == Some(Released))
  }

  class Reconciler {
    const data: Manager
    const provider: string

    constructor (data: Manager, provider: string)
      ensures this.data == data && this.provider == provider
    {
      this.data := data;
      this.provider := provider;
    }

    /** Brings one withdrawal up to date with what the provider reports for it, and records the look. */
    method Resolve(id: nat, f: Finding, now: int) returns (ok: bool)
      requires Ok(data.k, data.db) && id < |data.db.withdrawals| && Candidate(data.db.withdrawals[id], provider)
      modifies data`db, data`observations
      ensures Ok(data.k, data.db) && |data.db.withdrawals| == |old(data.db).withdrawals|
      ensures forall i | 0 <= i < |data.db.withdrawals| && i != id ::
        data.db.withdrawals[i] == old(data.db).withdrawals[i]
      ensures ok ==> Resolved(data.db.withdrawals[id], f)
      ensures data.observations == old(data.observations) + if ok then [Observed(id, f, now)] else []
    {
      hide Ok, Money.MarkSubmitted, Money.CustodyUpdate;
      if f.Unreachable? || (f.Found? && f.tx == "") {
        return false;
      }
      if f.Found? {
        MarkOk(data.k, data.db, id, f.tx);
        MarkTouches(data.db, id, f.tx);
        MarkDone(data.k, data.db, id, f.tx);
        var marked := data.MarkSubmitted(id, f.tx);
        if marked.Refused? {
          return false;
        }
      }
      var recorded := data.RecordObservation(id, provider, f, now);
      if f.Found? {
        UpdateOk(data.k, data.db, f.tx, f.status);
        UpdateResolves(data.k, data.db, id, f);
        var updated := data.CustodyUpdate(f.tx, f.status);
      }
      ok := true;
    }

    method RunOnce(now: int, find: nat -> Finding) returns (processed: nat, ids: seq<nat>, ok: bool)
      requires Ok(data.k, data.db)
      modifies data`db, data`observations
      ensures Ok(data.k, data.db) && |data.db.withdrawals| == |old(data.db).withdrawals|
      ensures forall i | 0 <= i < |ids| ::
        && ids[i] < |data.db.withdrawals| && Candidate(old(data.db).withdrawals[ids[i]], provider)
        && Due(old(data.observations), ids[i], now)
      ensures processed <= |ids| && forall i | 0 <= i < processed :: Resolved(data.db.withdrawals[ids[i]], find(ids[i]))
      ensures data.observations == old(data.observations) + Looks(ids[..processed], find, now)
      ensures forall id | 0 <= id < |data.db.withdrawals| && id !in ids ::
        data.db.withdrawals[id] == old(data.db).withdrawals[id]
      ensures ok ==> processed == |ids|
    {
      hide Ok, Resolved, Candidate, Due, Looks;
      processed, ids, ok := 0, [], false;
      assert Looks([], find, now) == [] by {
        NoLooks(find, now);
      }
      if provider == "" {
        return;
      }
      ids := data.ReconciliationCandidates(provider, 25, now);
      while processed < |ids|
        invariant processed <= |ids| && Ok(data.k, data.db) && |data.db.withdrawals| == |old(data.db).withdrawals|
        invariant forall i | 0 <= i < processed :: Resolved(data.db.withdrawals[ids[i]], find(ids[i]))
        invariant data.observations == old(data.observations) + Looks(ids[..processed], find, now)
        invariant forall id | 0 <= id < |data.db.withdrawals| && id !in ids[..processed] ::
          data.db.withdrawals[id] == old(data.db).withdrawals[id]
      {
        var id := ids[processed];
        assert id !in ids[..processed];
        var fine := Resolve(id, find(id), now);
        assert ids[..processed + 1] == ids[..processed] + [id];
        if !fine {
          return;
        }
        LooksSnoc(ids[..processed], id, find, now);
        processed := processed + 1;
      }
      ok := true;
    }
  }

  /** The observations of these withdrawals, in order. */
  function Looks(ids: seq<nat>, find: nat -> Finding, now: int): seq<Observed> {
    seq(|ids|, i requires 0 <= i < |ids| => Observed(ids[i], find(ids[i]), now))
  }

  lemma NoLooks(find: nat -> Finding, now: int)
    ensures Looks([], find, now) == []
  {
  }

  lemma LooksSnoc(ids: seq<nat>, id: nat, find: nat -> Finding, now: int)
    ensures Looks(ids + [id], find, now) == Looks(ids, find, now) + [Observed(id, find(id), now)]
  {
  }

  /** Looked at now, a withdrawal is not due again for half a minute. */
  lemma NotDueAgain(before: seq<Observed>, ids: seq<nat>, find: nat -> Finding, now: int, i: nat, later: int)
    requires i < |ids|
    ensures Due(before + Looks(ids, find, now), ids[i], later) ==> later >= now + 30
  {
    assert (before + Looks(ids, find, now))[|before| + i] == Observed(ids[i], find(ids[i]), now);
  }

  lemma ObserveLeaves(k: World, db: DB, o: Observation, matched: bool, funding: Option<string>)
    ensures Leaves(db, Money.ObserveDeposit(k, db, o, matched, funding).0,
                   NO_ROWS.(deposit := FindDeposit(db.deposits, o.tx, o.index)))
  {
    hide FindDeposit;
  }

  /** A dispatch changes the one row, and says so exactly when it claims it. */
  lemma BeginTouches(k: World, db: DB, provider: string, item: Item, evidence: Option<Evidence>, checks: Checks)
    ensures var (db', reply) := Money.BeginDispatch(k, db, provider, item, evidence, checks);
      && |db'.withdrawals| == |db.withdrawals|
      && (forall i | 0 <= i < |db.withdrawals| && i != item.id :: db'.withdrawals[i] == db.withdrawals[i])
      && (reply.Done? ==>
            && item.id < |db.withdrawals| && db.withdrawals[item.id].dispatch.None?
            && db'.withdrawals[item.id].dispatch == Some(provider))
      && (!reply.Done? ==> db' == db && (reply.Refused? || reply.NotClaimed?))
  {
  }

  lemma MarkTouches(db: DB, id: nat, tx: string)
    ensures var (db', reply) := Money.MarkSubmitted(db, id, tx);
      && |db'.withdrawals| == |db.withdrawals|
      && (forall i | 0 <= i < |db.withdrawals| && i != id :: db'.withdrawals[i] == db.withdrawals[i])
      && (id < |db.withdrawals| ==> db'.withdrawals[id].dispatch == db.withdrawals[id].dispatch)
  {
  }

  /** An accepted answer leaves the row with the provider's id, and still unresolved. */
  lemma MarkDone(k: World, db: DB, id: nat, tx: string)
    requires id < |db.withdrawals| && Unresolved(db.withdrawals[id])
    ensures var (db', reply) := Money.MarkSubmitted(db, id, tx);
      && |db'.withdrawals| == |db.withdrawals| && (reply.Done? || reply.Refused?)
      && (reply.Done? ==> db'.withdrawals[id].providerTx == tx && Unresolved(db'.withdrawals[id]))
  {
  }

  /** A final report ends exactly the withdrawal it belongs to. */
  lemma UpdateResolves(k: World, db: DB, id: nat, f: Finding)
    requires Ok(k, db) && id < |db.withdrawals| && Unresolved(db.withdrawals[id])
    requires f.Found? && f.tx != "" && db.withdrawals[id].providerTx == f.tx
    ensures var db' := Money.CustodyUpdate(k, db, f.tx, f.status).0;
      && |db'.withdrawals| == |db.withdrawals|
      && (forall i | 0 <= i < |db.withdrawals| && i != id :: db'.withdrawals[i] == db.withdrawals[i])
      && Resolved(db'.withdrawals[id], f)
  {
    hide FindTx, LedgerOk, HoldsOk, TradesOk, DepositsOk, WithdrawalPosted;
    var found := FindTx(db.withdrawals, f.tx);
    assert found == id;
    assert WithdrawalOk(k, db.withdrawals[id]);
  }
}
