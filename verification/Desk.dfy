/** The peer-to-peer trades as they run. */
module Desks {
  import opened Octets
  import opened Options
  import opened Ledger
  import opened Money
  import opened MoneyLaws
  import opened MoneyRuns
  import opened Idempotency

  /** Journal n refunds the trade to its seller. */
  predicate RefundPosted(before: DB, after: DB, id: nat, n: nat) {
    && id < |before.trades| && n < |after.journals|
    && after.journals[n]
       == Journal(EscrowRefund(id),
                  UnholdPostings(before.trades[id].sellerAccount, before.trades[id].asset, before.trades[id].amount))
  }

  function DueAt(t: P2PTrade): int {
    if t.status.Open? then t.offerExpires else t.deadline
  }

  /** The order in which overdue trades expire. */
  predicate Sooner(db: DB, i: nat, j: nat) {
    && i < |db.trades| && j < |db.trades|
    && (DueAt(db.trades[i]) < DueAt(db.trades[j]) || (DueAt(db.trades[i]) == DueAt(db.trades[j]) && i < j))
  }

  predicate Expiring(db: DB, id: nat, now: int, locked: set<nat>) {
    id < |db.trades| && Overdue(db.trades[id], now) && id !in locked
  }

  class Desk {
    const k: World

    /** The committed tables. */
    var db: DB
    var events: Events
    var resolutions: seq<Resolution>

    constructor (k: World, db: DB)
      ensures this.k == k && this.db == db && events == map[] && resolutions == []
    {
      this.k := k;
      this.db := db;
      events, resolutions := map[], [];
    }

    /** Looks a request up under its actor and key. */
    method ExistingAction(actor: string, key: string, hash: Bytes) returns (reply: Option<Reply>)
      ensures reply == Existing(events, actor, key, hash)
    {
      if (actor, key) !in events {
        return None;
      }
      var logged := events[(actor, key)];
      if logged.hash != hash {
        return Some(Refused);
      }
      reply := Some(Duplicate(logged.trade));
    }

    /** The trade as it was, with its new status. */
    method SetStatus(id: nat, t: P2PTrade)
      requires id < |db.trades|
      modifies this`db
      ensures db == SetTrade(old(db), id, t)
    {
      db := db.(trades := db.trades[id := t]);
    }

    method Create(key: string, hash: Bytes, t: P2PTrade, checks: Checks) returns (reply: Reply)
      modifies this`db, this`events
      ensures (db, events, reply) == ActOnce(k, old(db), old(events), key, hash, DoCreate(t, checks))
      ensures Leaves(old(db), db, NO_ROWS)
      ensures Ok(k, old(db)) ==> Ok(k, db)
    {
      hide Balance, Ok;
      if Ok(k, db) {
        CreateOk(k, db, t, checks);
      }
      var existing := ExistingAction(t.seller, key, hash);
      if existing.Some? {
        return existing.value;
      }
      if !checks.asset || !checks.account || k.owner(t.sellerAccount) != Some(t.seller) {
        return Refused;
      }
      var available := Balance(db.journals, t.sellerAccount, t.asset, Available);
      if t.amount == 0 || available < t.amount {
        return Refused;
      }
      var id := |db.trades|;
      db := db.(trades := db.trades + [t.(status := Open, buyer := "", buyerAccount := "")]);
      PostEscrow(id, t.sellerAccount, t.asset, t.amount);
      events := events[(t.seller, key) := Logged(hash, id)];
      reply := Created(id);
    }

    method PostEscrow(id: nat, account: string, asset: string, amount: nat)
      modifies this`db
      ensures db == Post(old(db), Escrow(id), HoldPostings(account, asset, amount))
    {
      var out := Posting(account, asset, Available, false, amount);
      var into := Posting(account, asset, Held, true, amount);
      db := db.(journals := db.journals + [Journal(Escrow(id), [out, into])]);
    }

    method Accept(key: string, hash: Bytes, id: nat, buyer: string, account: string, now: int, deadline: int,
                  checks: Checks)
      returns (reply: Reply)
      modifies this`db, this`events
      ensures (db, events, reply)
           == ActOnce(k, old(db), old(events), key, hash, DoAccept(id, buyer, account, now, deadline, checks))
      ensures Leaves(old(db), db, NO_ROWS.(trade := id)) && db.journals == old(db).journals
      ensures WorldOk(k) && Ok(k, old(db)) ==> Ok(k, db)
    {
      hide Ok;
      if WorldOk(k) && Ok(k, db) {
        StepOk(k, db, DoAccept(id, buyer, account, now, deadline, checks));
      }
      var existing := ExistingAction(buyer, key, hash);
      if existing.Some? {
        return existing.value;
      }
      if id >= |db.trades| {
        return Refused;
      }
      var t := db.trades[id];
      if !t.status.Open? || now >= t.offerExpires || buyer == t.seller {
        return Refused;
      }
      if !checks.account || k.owner(account) != Some(buyer) || account == "" {
        return Refused;
      }
      SetStatus(id, t.(buyer := buyer, buyerAccount := account, status := Accepted, deadline := deadline));
      events := events[(buyer, key) := Logged(hash, id)];
      reply := Done;
    }

    method MarkPaid(key: string, hash: Bytes, id: nat, user: string, account: string, now: int) returns (reply: Reply)
      modifies this`db, this`events
      ensures (db, events, reply) == ActOnce(k, old(db), old(events), key, hash, DoPay(id, user, account, now))
      ensures Leaves(old(db), db, NO_ROWS.(trade := id)) && db.journals == old(db).journals
      ensures WorldOk(k) && Ok(k, old(db)) ==> Ok(k, db)
    {
      hide Ok;
      if WorldOk(k) && Ok(k, db) {
        StepOk(k, db, DoPay(id, user, account, now));
      }
      var existing := ExistingAction(user, key, hash);
      if existing.Some? {
        return existing.value;
      }
      if id >= |db.trades| {
        return Refused;
      }
      var t := db.trades[id];
      if !t.status.Accepted? || t.buyer != user || t.buyerAccount != account || now > t.deadline {
        return Refused;
      }
      SetStatus(id, t.(status := Paid));
      events := events[(user, key) := Logged(hash, id)];
      reply := Done;
    }

    method Dispute(key: string, hash: Bytes, id: nat, user: string, account: string) returns (reply: Reply)
      modifies this`db, this`events
      ensures (db, events, reply) == ActOnce(k, old(db), old(events), key, hash, DoDispute(id, user, account))
      ensures Leaves(old(db), db, NO_ROWS.(trade := id)) && db.journals == old(db).journals
      ensures WorldOk(k) && Ok(k, old(db)) ==> Ok(k, db)
    {
      hide Ok;
      if WorldOk(k) && Ok(k, db) {
        StepOk(k, db, DoDispute(id, user, account));
      }
      var existing := ExistingAction(user, key, hash);
      if existing.Some? {
        return existing.value;
      }
      if id >= |db.trades| {
        return Refused;
      }
      var t := db.trades[id];
      if !t.status.Accepted? && !t.status.Paid? {
        return Refused;
      }
      var selling := t.seller == user && t.sellerAccount == account;
      var buying := t.buyer == user && t.buyerAccount == account;
      if !selling && !buying {
        return Refused;
      }
      SetStatus(id, t.(status := Disputed));
      events := events[(user, key) := Logged(hash, id)];
      reply := Done;
    }

    /** The escrowed amount goes to the buyer, or nothing happens. */
    method PostRelease(id: nat) returns (reply: Reply)
      modifies this`db
      ensures (db, reply) == ReleaseEscrow(old(db), id)
      ensures Leaves(old(db), db, NO_ROWS.(trade := id))
    {
      hide Balance;
      if id >= |db.trades| || db.trades[id].buyerAccount == "" {
        return Refused;
      }
      var t := db.trades[id];
      var held := Balance(db.journals, t.sellerAccount, t.asset, Held);
      if held < t.amount {
        return Refused;
      }
      var out := Posting(t.sellerAccount, t.asset, Held, false, t.amount);
      var into := Posting(t.buyerAccount, t.asset, Available, true, t.amount);
      db := db.(journals := db.journals + [Journal(EscrowRelease(id), [out, into])]);
      SetStatus(id, t.(status := TradeReleased));
      reply := Done;
    }

    /** The escrowed amount goes back to the seller, or nothing happens. */
    method PostRefund(id: nat, status: TradeStatus) returns (reply: Reply)
      modifies this`db
      ensures (db, reply) == RefundEscrow(old(db), id, status)
      ensures Leaves(old(db), db, NO_ROWS.(trade := id))
    {
      hide Balance;
      if id >= |db.trades| {
        return Refused;
      }
      var t := db.trades[id];
      var held := Balance(db.journals, t.sellerAccount, t.asset, Held);
      if held < t.amount {
        return Refused;
      }
      var out := Posting(t.sellerAccount, t.asset, Held, false, t.amount);
      var into := Posting(t.sellerAccount, t.asset, Available, true, t.amount);
      db := db.(journals := db.journals + [Journal(EscrowRefund(id), [out, into])]);
      SetStatus(id, t.(status := status));
      reply := Done;
    }

    method Release(key: string, hash: Bytes, id: nat, user: string, account: string) returns (reply: Reply)
      modifies this`db, this`events
      ensures (db, events, reply) == ActOnce(k, old(db), old(events), key, hash, DoRelease(id, user, account))
      ensures Leaves(old(db), db, NO_ROWS.(trade := id))
      ensures WorldOk(k) && Ok(k, old(db)) ==> Ok(k, db)
    {
      hide Ok, ReleaseEscrow;
      if WorldOk(k) && Ok(k, db) {
        StepOk(k, db, DoRelease(id, user, account));
      }
      OnlyDoneOrRefused(db, id, Refunded);
      var existing := ExistingAction(user, key, hash);
      if existing.Some? {
        return existing.value;
      }
      if id >= |db.trades| || !db.trades[id].status.Paid? {
        return Refused;
      }
      if db.trades[id].seller != user || db.trades[id].sellerAccount != account {
        return Refused;
      }
      reply := PostRelease(id);
      if reply.Done? {
        events := events[(user, key) := Logged(hash, id)];
      }
    }

    method Cancel(key: string, hash: Bytes, id: nat, user: string, account: string) returns (reply: Reply)
      modifies this`db, this`events
      ensures (db, events, reply) == ActOnce(k, old(db), old(events), key, hash, DoCancelTrade(id, user, account))
      ensures Leaves(old(db), db, NO_ROWS.(trade := id))
      ensures WorldOk(k) && Ok(k, old(db)) ==> Ok(k, db)
    {
      hide Ok, RefundEscrow;
      if WorldOk(k) && Ok(k, db) {
        StepOk(k, db, DoCancelTrade(id, user, account));
      }
      OnlyDoneOrRefused(db, id, TradeCancelled);
      var existing := ExistingAction(user, key, hash);
      if existing.Some? {
        return existing.value;
      }
      if id >= |db.trades| || !db.trades[id].status.Open? {
        return Refused;
      }
      if db.trades[id].seller != user || db.trades[id].sellerAccount != account {
        return Refused;
      }
      reply := PostRefund(id, TradeCancelled);
      if reply.Done? {
        events := events[(user, key) := Logged(hash, id)];
      }
    }

    /** One person proposes how to end a dispute; a trade has one open proposal at a time. */
    method ProposeResolution(actor: string, key: string, hash: Bytes, trade: nat, release: bool, checks: Checks)
      returns (reply: Reply)
      modifies this`events, this`resolutions
      ensures (events, resolutions, reply)
           == ProposeOnce(db, old(events), old(resolutions), actor, key, hash, trade, release, checks)
    {
      if !checks.role {
        return Refused;
      }
      var existing := ExistingAction(actor, key, hash);
      if existing.Some? {
        return existing.value;
      }
      if trade >= |db.trades| || !db.trades[trade].status.Disputed? {
        return Refused;
      }
      var pending := FindPending(trade);
      if pending {
        return Refused;
      }
      resolutions := resolutions + [Resolution(trade, release, actor, None)];
      events := events[(actor, key) := Logged(hash, trade)];
      reply := Done;
    }

    method FindPending(trade: nat) returns (found: bool)
      ensures found <==> HasPending(resolutions, trade)
    {
      var i := 0;
      while i < |resolutions|
        invariant 0 <= i <= |resolutions|
        invariant forall j | 0 <= j < i :: resolutions[j].trade != trade || resolutions[j].approvedBy.Some?
      {
        if resolutions[i].trade == trade && resolutions[i].approvedBy.None? {
          return true;
        }
        i := i + 1;
      }
      found := false;
    }

    /** Another person approves it, and the trade is released or refunded. */
    method ApproveResolution(actor: string, key: string, hash: Bytes, id: nat, checks: Checks) returns (reply: Reply)
      modifies this
      ensures (db, events, resolutions, reply)
           == ApproveOnce(old(db), old(events), old(resolutions), actor, key, hash, id, checks)
      ensures Leaves(old(db), db, NO_ROWS.(trade := if id < |old(resolutions)| then old(resolutions)[id].trade else -1))
      ensures WorldOk(k) && Ok(k, old(db)) ==> Ok(k, db)
    {
      hide Ok, ReleaseEscrow, RefundEscrow, HasPending, Leaves, Step;
      SameRows(db, if id < |resolutions| then resolutions[id].trade else -1);
      if !checks.role {
        return Refused;
      }
      var existing := ExistingAction(actor, key, hash);
      if existing.Some? {
        return existing.value;
      }
      if id >= |resolutions| {
        return Refused;
      }
      var r := resolutions[id];
      if r.approvedBy.Some? || r.proposedBy == actor {
        return Refused;
      }
      if WorldOk(k) && Ok(k, db) {
        ResolveOk(k, db, r.trade, r.release, checks);
      }
      OnlyDoneOrRefused(db, r.trade, Refunded);
      if r.trade >= |db.trades| || !db.trades[r.trade].status.Disputed? {
        return Refused;
      }
      if r.release {
        reply := PostRelease(r.trade);
      } else {
        reply := PostRefund(r.trade, Refunded);
      }
      if reply.Done? {
        resolutions := resolutions[id := r.(approvedBy := Some(actor))];
        events := events[(actor, key) := Logged(hash, r.trade)];
      }
    }

    /** Overdue trades nobody has locked, the longest overdue first, at most `limit` of them. */
    method Batch(now: int, limit: nat, locked: set<nat>) returns (ids: seq<nat>)
      ensures |ids| <= limit && forall i | 0 <= i < |ids| :: Expiring(db, ids[i], now, locked)
      ensures forall i, j | 0 <= i < j < |ids| :: Sooner(db, ids[i], ids[j])
      ensures forall id: nat | Expiring(db, id, now, locked) ::
        id in ids || (|ids| == limit && forall i | 0 <= i < |ids| :: Sooner(db, ids[i], id))
    {
      ids := [];
      while |ids| < limit
        invariant |ids| <= limit && forall i | 0 <= i < |ids| :: Expiring(db, ids[i], now, locked)
        invariant forall i, j | 0 <= i < j < |ids| :: Sooner(db, ids[i], ids[j])
        invariant forall id: nat | Expiring(db, id, now, locked) && id !in ids ::
          forall i | 0 <= i < |ids| :: Sooner(db, ids[i], id)
      {
        var next := First(now, locked, ids);
        if next.None? {
          return;
        }
        ids := ids + [next.value];
      }
    }

    /** The longest overdue trade outside `taken`. */
    method First(now: int, locked: set<nat>, taken: seq<nat>) returns (next: Option<nat>)
      ensures next.None? ==> forall id: nat | Expiring(db, id, now, locked) :: id in taken
      ensures next.Some? ==>
        && Expiring(db, next.value, now, locked) && next.value !in taken
        && forall id: nat | Expiring(db, id, now, locked) && id !in taken && id != next.value ::
          Sooner(db, next.value, id)
    {
      next := None;
      for id := 0 to |db.trades|
        invariant next.None? ==> forall j: nat | Expiring(db, j, now, locked) && j < id :: j in taken
        invariant next.Some? ==>
          && Expiring(db, next.value, now, locked) && next.value !in taken && next.value < id
          && forall j: nat | Expiring(db, j, now, locked) && j !in taken && j < id && j != next.value ::
            Sooner(db, next.value, j)
      {
        if Overdue(db.trades[id], now) && id !in locked && id !in taken && (next.None? || Sooner(db, id, next.value)) {
          next := Some(id);
        }
      }
    }

    /** Refunds a batch of overdue trades, all of them or none. */
    method Expire(now: int, limit: nat, locked: set<nat>) returns (ids: seq<nat>, reply: Reply)
      requires Ok(k, db)
      modifies this`db
      ensures |ids| <= limit && forall i | 0 <= i < |ids| :: Expiring(old(db), ids[i], now, locked)
      ensures forall i, j | 0 <= i < j < |ids| :: Sooner(old(db), ids[i], ids[j])
      ensures forall id: nat | Expiring(old(db), id, now, locked) ::
        id in ids || (|ids| == limit && forall i | 0 <= i < |ids| :: Sooner(old(db), ids[i], id))
      ensures reply.Done? && Ok(k, db) && |db.trades| == |old(db).trades|
      ensures forall id | 0 <= id < |db.trades| ::
        db.trades[id] == if id in ids then old(db).trades[id].(status := Expired) else old(db).trades[id]
      ensures db == old(db).(trades := db.trades, journals := db.journals)
      ensures old(db).journals <= db.journals && |db.journals| == |old(db).journals| + |ids|
      ensures forall n | 0 <= n < |ids| :: RefundPosted(old(db), db, ids[n], |old(db).journals| + n)
    {
      hide Ok, RefundPosted, Overdue;
      ids := Batch(now, limit, locked);
      forall i, j | 0 <= i < j < |ids| ensures ids[i] != ids[j] {
        assert Sooner(db, ids[i], ids[j]);
      }
      reply := RefundAll(ids, now);
    }

    method RefundAll(ids: seq<nat>, now: int) returns (reply: Reply)
      requires Ok(k, db)
      requires forall i | 0 <= i < |ids| :: ids[i] < |db.trades| && Overdue(db.trades[ids[i]], now)
      requires forall i, j | 0 <= i < j < |ids| :: ids[i] != ids[j]
      modifies this`db
      ensures reply.Done? && Ok(k, db) && |db.trades| == |old(db).trades|
      ensures forall id | 0 <= id < |db.trades| ::
        db.trades[id] == if id in ids then old(db).trades[id].(status := Expired) else old(db).trades[id]
      ensures db == old(db).(trades := db.trades, journals := db.journals)
      ensures old(db).journals <= db.journals && |db.journals| == |old(db).journals| + |ids|
      ensures forall n | 0 <= n < |ids| :: RefundPosted(old(db), db, ids[n], |old(db).journals| + n)
    {
      hide Ok, Balance;
      var tx := db;
      var n: nat := 0;
      while n < |ids|
        invariant n <= |ids| && Ok(k, tx) && |tx.trades| == |old(db).trades|
        invariant forall id | 0 <= id < |tx.trades| ::
          tx.trades[id] == if id in ids[..n] then old(db).trades[id].(status := Expired) else old(db).trades[id]
        invariant tx == old(db).(trades := tx.trades, journals := tx.journals)
        invariant old(db).journals <= tx.journals && |tx.journals| == |old(db).journals| + n
        invariant forall m | 0 <= m < n :: RefundPosted(old(db), tx, ids[m], |old(db).journals| + m)
      {
        assert ids[n] !in ids[..n];
        EscrowIsHeld(k, tx, ids[n]);
        RefundEscrowOk(k, tx, ids[n], Expired);
        var t := tx.trades[ids[n]];
        if Balance(tx.journals, t.sellerAccount, t.asset, Held) < t.amount {
          return Refused;
        }
        tx := tx.(trades := tx.trades[ids[n] := t.(status := Expired)]);
        tx := tx.(journals := tx.journals
          + [Journal(EscrowRefund(ids[n]), UnholdPostings(t.sellerAccount, t.asset, t.amount))]);
        assert ids[..n + 1] == ids[..n] + [ids[n]];
        n := n + 1;
      }
      assert ids[..n] == ids;
      db := tx;
      reply := Done;
    }
  }

  /** An open offer is due when it expires, an accepted one at its deadline; what is due first goes first. */
  lemma SoonerMeans(db: DB, i: nat, j: nat, now: int, locked: set<nat>)
    requires Expiring(db, i, now, locked) && Expiring(db, j, now, locked)
    ensures var t, u := db.trades[i], db.trades[j];
      Sooner(db, i, j) <==>
      match (t.status, u.status)
      case (Open, Open) => t.offerExpires < u.offerExpires || (t.offerExpires == u.offerExpires && i < j)
      case (Open, _) => t.offerExpires < u.deadline || (t.offerExpires == u.deadline && i < j)
      case (_, Open) => t.deadline < u.offerExpires || (t.deadline == u.offerExpires && i < j)
      case _ => t.deadline < u.deadline || (t.deadline == u.deadline && i < j)
  {
  }

  lemma SameRows(db: DB, trade: int)
    ensures Leaves(db, db, NO_ROWS.(trade := trade))
  {
  }

  lemma ResolveOk(k: World, db: DB, id: nat, release: bool, checks: Checks)
    requires WorldOk(k) && Ok(k, db)
    ensures Ok(k, ResolveTrade(db, id, release, checks).0)
  {
    hide Ok, ResolveTrade;
    StepOk(k, db, DoResolve(id, release, checks));
  }

  lemma OnlyDoneOrRefused(db: DB, id: nat, status: TradeStatus)
    ensures ReleaseEscrow(db, id).1.Done? || ReleaseEscrow(db, id) == (db, Refused)
    ensures RefundEscrow(db, id, status).1.Done? || RefundEscrow(db, id, status) == (db, Refused)
  {
    hide Balance;
  }
}
