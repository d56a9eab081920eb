/** Requests with idempotency keys: repeats change nothing, and disputes need two people. */
module Idempotency {
  import opened Octets
  import opened Options
  import opened Money
  import Ledger
  import opened MoneyLaws
  import opened MoneyRuns

  // The tables of keys.

  /** Journal positions of the transfers and conversions made under each key; journals share one space of keys. */
  datatype Keys = Keys(transfers: map<string, nat>, conversions: map<string, nat>)

  /** The request an actor made under a key, and the trade it was about. */
  datatype Logged = Logged(hash: Bytes, trade: nat)
  type Events = map<(string, string), Logged>

  datatype Resolution = Resolution(trade: nat, release: bool, proposedBy: string, approvedBy: Option<string>)

  datatype Books = Books(db: DB, keys: Keys, events: Events, resolutions: seq<Resolution>)

  const NO_KEYS := Keys(map[], map[])

  function NewBooks(controls: Controls): Books {
    Books(NewDB(controls), NO_KEYS, map[], [])
  }

  // Transfers and conversions.

  function TransferOnce(k: World, db: DB, keys: Keys, key: string, user: string, from: string, to: string,
                        asset: string,
                        amount: nat, checks: Checks): (DB, Keys, Reply)
  {
    if amount == 0 || key == "" then (db, keys, Refused)
    else if key in keys.transfers then (db, keys, Duplicate(keys.transfers[key]))
    else
      var (db', reply) := Transfer(k, db, user, from, to, asset, amount, checks);
      if !reply.Done? || key in keys.conversions then (db, keys, Refused)
      else (db', keys.(transfers := keys.transfers[key := |db.journals|]), Done)
  }

  function ConvertOnce(k: World, db: DB, keys: Keys, key: string, enabled: bool, user: string, id: nat,
                       checks: Checks): (DB, Keys, Reply) {
    if user == "" || key == "" || !enabled then (db, keys, Refused)
    else if key in keys.conversions then (db, keys, Duplicate(keys.conversions[key]))
    else
      var (db', reply) := ConfirmConversion(k, db, user, id, checks);
      if !reply.Done? || key in keys.transfers then (db, keys, Refused)
      else (db', keys.(conversions := keys.conversions[key := |db.journals|]), Done)
  }

  // Trades.

  /** The trade actions users take. */
  predicate IsDeskAction(a: Action) {
    a.DoCreate? || a.DoAccept? || a.DoPay? || a.DoDispute? || a.DoRelease? || a.DoCancelTrade?
  }

  function ActorOf(a: Action): string
    requires IsDeskAction(a)
  {
    match a
    case DoCreate(t, _) => t.seller
    case DoAccept(_, buyer, _, _, _, _) => buyer
    case DoPay(_, buyer, _, _) => buyer
    case DoDispute(_, user, _) => user
    case DoRelease(_, user, _) => user
    case DoCancelTrade(_, user, _) => user
  }

  function TradeOf(db: DB, a: Action): nat
    requires IsDeskAction(a)
  {
    if a.DoCreate? then |db.trades| else a.id
  }

  function Perform(k: World, db: DB, a: Action): (DB, Reply)
    requires IsDeskAction(a)
  {
    match a
    case DoCreate(t, checks) => CreateTrade(k, db, t, checks)
    case DoAccept(id, buyer, account, now, deadline, checks) =>
      AcceptTrade(k, db, id, buyer, account, now, deadline, checks)
    case DoPay(id, buyer, account, now) => PayTrade(db, id, buyer, account, now)
    case DoDispute(id, user, account) => DisputeTrade(db, id, user, account)
    case DoRelease(id, user, account) => ReleaseTrade(db, id, user, account)
    case DoCancelTrade(id, user, account) => CancelTrade(db, id, user, account)
  }

  /** What an actor's key already stands for. */
  function Existing(events: Events, actor: string, key: string, hash: Bytes): Option<Reply> {
    if (actor, key) !in events then None
    else if events[(actor, key)].hash == hash then Some(Duplicate(events[(actor, key)].trade))
    else Some(Refused)
  }

  function ActOnce(k: World, db: DB, events: Events, key: string, hash: Bytes, a: Action): (DB, Events, Reply)
    requires IsDeskAction(a)
  {
    match Existing(events, ActorOf(a), key, hash)
    case Some(reply) => (db, events, reply)
    case None =>
      var (db', reply) := Perform(k, db, a);
      if reply.Refused? then (db, events, Refused)
      else (db', events[(ActorOf(a), key) := Logged(hash, TradeOf(db, a))], reply)
  }

  // Resolutions of disputes.

  predicate HasPending(resolutions: seq<Resolution>, trade: nat) {
    exists i :: 0 <= i < |resolutions| && resolutions[i].trade == trade && resolutions[i].approvedBy.None?
  }

  function ProposeOnce(db: DB, events: Events, resolutions: seq<Resolution>, actor: string, key: string, hash: Bytes,
                       trade: nat, release: bool, checks: Checks): (Events, seq<Resolution>, Reply)
  {
    if !checks.role then (events, resolutions, Refused)
    else
      match Existing(events, actor, key, hash)
      case Some(reply) => (events, resolutions, reply)
      case None =>
        if trade >= |db.trades| || !db.trades[trade].status.Disputed? || HasPending(resolutions, trade)
        then (events, resolutions, Refused)
        else (events[(actor, key) := Logged(hash, trade)], resolutions
          + [Resolution(trade, release, actor, None)], Done)
  }

  function ApproveOnce(db: DB, events: Events, resolutions: seq<Resolution>, actor: string, key: string, hash: Bytes,
                       id: nat, checks: Checks): (DB, Events, seq<Resolution>, Reply)
  {
    if !checks.role then (db, events, resolutions, Refused)
    else
      match Existing(events, actor, key, hash)
      case Some(reply) => (db, events, resolutions, reply)
      case None =>
        if id >= |resolutions| || resolutions[id].approvedBy.Some? || resolutions[id].proposedBy == actor
        then (db, events, resolutions, Refused)
        else
          var r := resolutions[id];
          var (db', reply) := ResolveTrade(db, r.trade, r.release, checks);
          if !reply.Done? then (db, events, resolutions, Refused)
          else (db', events[(actor, key) := Logged(hash, r.trade)], resolutions[id := r.(approvedBy := Some(actor))],
                Done)
  }

  // Runs.

  datatype Call =
    | Plain(action: Action)
    | Pay(key: string, user: string, from: string, to: string, asset: string, amount: nat, checks: Checks)
    | Swap(key: string, enabled: bool, user: string, id: nat, checks: Checks)
    | Act(key: string, hash: Bytes, action: Action)
    | Propose(actor: string, key: string, hash: Bytes, trade: nat, release: bool, checks: Checks)
    | Approve(actor: string, key: string, hash: Bytes, id: nat, checks: Checks)

  /** Transactions that carry no such key. */
  predicate IsPlain(a: Action) {
    !IsDeskAction(a) && !a.DoTransfer? && !a.DoConvert? && !a.DoResolve?
  }

  ghost function Answer(k: World, st: Books, c: Call): (Books, Reply) {
    match c
    case Plain(a) => if IsPlain(a) then (st.(db := Step(k, st.db, a)), Done) else (st, Refused)
    case Pay(key, user, from, to, asset, amount, checks) =>
      var (db, keys, reply) := TransferOnce(k, st.db, st.keys, key, user, from, to, asset, amount, checks);
      (st.(db := db, keys := keys), reply)
    case Swap(key, enabled, user, id, checks) =>
      var (db, keys, reply) := ConvertOnce(k, st.db, st.keys, key, enabled, user, id, checks);
      (st.(db := db, keys := keys), reply)
    case Act(key, hash, a) =>
      if !IsDeskAction(a) then (st, Refused)
      else
        var (db, events, reply) := ActOnce(k, st.db, st.events, key, hash, a);
        (st.(db := db, events := events), reply)
    case Propose(actor, key, hash, trade, release, checks) =>
      var (events, resolutions, reply) :=
        ProposeOnce(st.db, st.events, st.resolutions, actor, key, hash, trade, release, checks);
      (st.(events := events, resolutions := resolutions), reply)
    case Approve(actor, key, hash, id, checks) =>
      var (db, events, resolutions, reply) :=
        ApproveOnce(st.db, st.events, st.resolutions, actor, key, hash, id, checks);
      (Books(db, st.keys, events, resolutions), reply)
  }

  ghost function After(k: World, controls: Controls, calls: seq<Call>): Books {
    if calls == [] then NewBooks(controls)
    else Answer(k, After(k, controls, calls[..|calls| - 1]), calls[|calls| - 1]).0
  }

  /** The reply call n gets. */
  ghost function ReplyAt(k: World, controls: Controls, calls: seq<Call>, n: nat): Reply
    requires n < |calls|
  {
    Answer(k, After(k, controls, calls[..n]), calls[n]).1
  }

  predicate TookEffect(reply: Reply) {
    reply.Done? || reply.Created?
  }

  // Every keyed run is a run of transactions.

  /** The transaction a call comes down to, if it changes anything. */
  ghost function Effective(k: World, st: Books, c: Call): seq<Action> {
    match c
    case Plain(a) => if IsPlain(a) then [a] else []
    case Pay(key, user, from, to, asset, amount, checks) =>
      if Answer(k, st, c).1.Done? then [DoTransfer(user, from, to, asset, amount, checks)] else []
    case Swap(key, enabled, user, id, checks) => if Answer(k, st, c).1.Done? then [DoConvert(user, id, checks)] else []
    case Act(key, hash, a) =>
      if IsDeskAction(a) && TookEffect(Answer(k, st, c).1) then [a] else []
    case Propose(_, _, _, _, _, _) => []
    case Approve(actor, key, hash, id, checks) =>
      if Answer(k, st, c).1.Done? && id < |st.resolutions|
      then [DoResolve(st.resolutions[id].trade, st.resolutions[id].release, checks)] else []
  }

  lemma CallIsStep(k: World, st: Books, c: Call)
    ensures var actions := Effective(k, st, c);
      && |actions| <= 1
      && Answer(k, st, c).0.db == if actions == [] then st.db else Step(k, st.db, actions[0])
  {
    hide CreateTrade, AcceptTrade, PayTrade, DisputeTrade, ReleaseTrade, CancelTrade, ResolveTrade, Transfer,
      ConfirmConversion;
    hide HasPending, TransferOnce, ConvertOnce;
    match c
    case Act(key, hash, a) => if IsDeskAction(a) { ActIsStep(k, st, c); }
    case Pay(_, _, _, _, _, _, _) => PayIsStep(k, st, c);
    case Swap(_, _, _, _, _) => PayIsStep(k, st, c);
    case _ =>
  }

  lemma PayIsStep(k: World, st: Books, c: Call)
    requires c.Pay? || c.Swap?
    ensures var actions := Effective(k, st, c);
      Answer(k, st, c).0.db == if actions == [] then st.db else Step(k, st.db, actions[0])
  {
    hide Transfer, ConfirmConversion;
  }

  lemma ActIsStep(k: World, st: Books, c: Call)
    requires c.Act? && IsDeskAction(c.action)
    ensures var actions := Effective(k, st, c);
      Answer(k, st, c).0.db == if actions == [] then st.db else Step(k, st.db, actions[0])
  {
    hide Perform, Step;
    PerformIsStep(k, st.db, c.action);
  }

  lemma PerformIsStep(k: World, db: DB, a: Action)
    requires IsDeskAction(a)
    ensures Perform(k, db, a).0 == Step(k, db, a)
    ensures Perform(k, db, a).1.Refused? || Perform(k, db, a).1.Done? || Perform(k, db, a).1.Created?
  {
  }

  ghost function AllEffective(k: World, controls: Controls, calls: seq<Call>): seq<Action> {
    if calls == [] then []
    else
      var before := calls[..|calls| - 1];
      AllEffective(k, controls, before) + Effective(k, After(k, controls, before), calls[|calls| - 1])
  }

  /** Whatever is proved of all runs of transactions holds of all runs of keyed requests. */
  lemma {:induction false} KeyedIsRun(k: World, controls: Controls, calls: seq<Call>)
    ensures After(k, controls, calls).db == Run(k, controls, AllEffective(k, controls, calls))
  {
    hide Answer, Effective, Step;
    if calls != [] {
      var before, c := calls[..|calls| - 1], calls[|calls| - 1];
      KeyedIsRun(k, controls, before);
      var st := After(k, controls, before);
      CallIsStep(k, st, c);
      var actions, more := AllEffective(k, controls, before), Effective(k, st, c);
      if more == [] {
        assert actions + more == actions;
      } else {
        assert (actions + more)[..|actions|] == actions && (actions + more)[|actions|] == more[0];
      }
    }
  }

  lemma KeyedOk(k: World, controls: Controls, calls: seq<Call>)
    requires WorldOk(k)
    ensures Ok(k, After(k, controls, calls).db)
  {
    hide After, AllEffective, Run, Ok;
    KeyedIsRun(k, controls, calls);
    RunOk(k, controls, AllEffective(k, controls, calls));
  }

  // Keys are never forgotten and never change their meaning.

  predicate Grows(st: Books, st': Books) {
    && (forall key | key in st.keys.transfers ::
          key in st'.keys.transfers && st'.keys.transfers[key] == st.keys.transfers[key])
    && (forall key | key in st.keys.conversions ::
          key in st'.keys.conversions && st'.keys.conversions[key] == st.keys.conversions[key])
    && (forall at | at in st.events :: at in st'.events && st'.events[at] == st.events[at])
  }

  lemma AnswerGrows(k: World, st: Books, c: Call)
    ensures Grows(st, Answer(k, st, c).0)
  {
    hide Step, Perform, ResolveTrade, Transfer, ConfirmConversion, HasPending;
  }

  lemma {:induction false} AfterGrows(k: World, controls: Controls, calls: seq<Call>, n: nat)
    requires n <= |calls|
    ensures Grows(After(k, controls, calls[..n]), After(k, controls, calls))
    decreases |calls|
  {
    hide Answer;
    if n == |calls| {
      assert calls[..n] == calls;
    } else {
      var before := calls[..|calls| - 1];
      assert before[..n] == calls[..n];
      AfterGrows(k, controls, before, n);
      AnswerGrows(k, After(k, controls, before), calls[|calls| - 1]);
    }
  }

  /** The request under an actor's key: an action, a proposal or an approval. */
  function KeyOf(c: Call): Option<(string, string)> {
    match c
    case Act(key, _, a) => if IsDeskAction(a) then Some((ActorOf(a), key)) else None
    case Propose(actor, key, _, _, _, _) => Some((actor, key))
    case Approve(actor, key, _, _, _) => Some((actor, key))
    case _ => None
  }

  lemma EffectLogs(k: World, st: Books, c: Call)
    requires KeyOf(c).Some? && TookEffect(Answer(k, st, c).1)
    ensures KeyOf(c).value in Answer(k, st, c).0.events && Answer(k, st, c).0.events[KeyOf(c).value].hash == c.hash
  {
    hide Perform, ResolveTrade, HasPending;
  }

  /** Proposals and approvals need the role before anything else is looked at. */
  predicate Permitted(c: Call) {
    match c
    case Propose(_, _, _, _, _, checks) => checks.role
    case Approve(_, _, _, _, checks) => checks.role
    case _ => true
  }

  lemma KnownKey(k: World, st: Books, c: Call)
    requires KeyOf(c).Some? && KeyOf(c).value in st.events
    ensures var (st', reply), logged := Answer(k, st, c), st.events[KeyOf(c).value];
      st' == st && reply == if logged.hash == c.hash && Permitted(c) then Duplicate(logged.trade) else Refused
  {
  }

  /**
   A trade request that took effect takes effect once: under the same actor and
   key every later request, whatever happened between, changes nothing; the
   same request is answered with the same trade, a different one or one without
   the role it needs is refused.
   */
  lemma ActedOnce(k: World, controls: Controls, calls: seq<Call>, i: nat, j: nat)
    requires i < j < |calls| && KeyOf(calls[i]).Some? && KeyOf(calls[j]) == KeyOf(calls[i])
    requires TookEffect(ReplyAt(k, controls, calls, i))
    ensures After(k, controls, calls[..j + 1]) == After(k, controls, calls[..j])
    ensures !TookEffect(ReplyAt(k, controls, calls, j))
    ensures var at, st := KeyOf(calls[i]).value, After(k, controls, calls[..i + 1]);
      && at in st.events
      && ReplyAt(k, controls, calls, j)
         == if calls[j].hash == calls[i].hash && Permitted(calls[j]) then Duplicate(st.events[at].trade) else Refused
  {
    hide Answer, KeyOf;
    AfterStep(k, controls, calls, i);
    AfterStep(k, controls, calls, j);
    EffectLogs(k, After(k, controls, calls[..i]), calls[i]);
    assert calls[..j][..i + 1] == calls[..i + 1];
    AfterGrows(k, controls, calls[..j], i + 1);
    KnownKey(k, After(k, controls, calls[..j]), calls[j]);
  }

  lemma AfterStep(k: World, controls: Controls, calls: seq<Call>, n: nat)
    requires n < |calls|
    ensures After(k, controls, calls[..n + 1]) == Answer(k, After(k, controls, calls[..n]), calls[n]).0
  {
    hide Answer;
    assert calls[..n + 1][..n] == calls[..n];
  }

  /** A transfer, or a conversion, posts once per key: every later request under the key changes nothing. */
  lemma PaidOnce(k: World, controls: Controls, calls: seq<Call>, i: nat, j: nat)
    requires i < j < |calls| && calls[i].Pay? && calls[j].Pay? && calls[j].key == calls[i].key
    requires ReplyAt(k, controls, calls, i).Done?
    ensures After(k, controls, calls[..j + 1]) == After(k, controls, calls[..j])
    ensures ReplyAt(k, controls, calls, j).Duplicate? || calls[j].amount == 0
    ensures ReplyAt(k, controls, calls, j).Duplicate? ==>
      ReplyAt(k, controls, calls, j).id == |After(k, controls, calls[..i]).db.journals|
  {
    hide Transfer;
    AfterStep(k, controls, calls, i);
    AfterStep(k, controls, calls, j);
    assert calls[..j][..i + 1] == calls[..i + 1];
    AfterGrows(k, controls, calls[..j], i + 1);
  }

  lemma SwappedOnce(k: World, controls: Controls, calls: seq<Call>, i: nat, j: nat)
    requires i < j < |calls| && calls[i].Swap? && calls[j].Swap? && calls[j].key == calls[i].key
    requires ReplyAt(k, controls, calls, i).Done?
    ensures After(k, controls, calls[..j + 1]) == After(k, controls, calls[..j])
    ensures !ReplyAt(k, controls, calls, j).Done?
    ensures ReplyAt(k, controls, calls, j).Duplicate? ==>
      ReplyAt(k, controls, calls, j).id == |After(k, controls, calls[..i]).db.journals|
  {
    hide ConfirmConversion;
    AfterStep(k, controls, calls, i);
    AfterStep(k, controls, calls, j);
    assert calls[..j][..i + 1] == calls[..i + 1];
    AfterGrows(k, controls, calls[..j], i + 1);
  }

  // Two people resolve a dispute.

  predicate ByTwo(r: Resolution) {
    r.approvedBy.Some? ==> r.approvedBy.value != r.proposedBy
  }

  predicate AllByTwo(resolutions: seq<Resolution>) {
    forall i | 0 <= i < |resolutions| :: ByTwo(resolutions[i])
  }

  /** Approved, to this end, for this trade. */
  predicate Decides(r: Resolution, trade: nat, release: bool) {
    r.trade == trade && r.release == release && r.approvedBy.Some?
  }

  predicate Decided(resolutions: seq<Resolution>, trade: nat, release: bool) {
    exists i :: 0 <= i < |resolutions| && Decides(resolutions[i], trade, release)
  }

  /** Resolutions are only added and approved; what is approved stays. */
  predicate Extends(before: seq<Resolution>, after: seq<Resolution>) {
    |before| <= |after| && forall i | 0 <= i < |before| && before[i].approvedBy.Some? :: after[i] == before[i]
  }

  lemma StillDecided(before: seq<Resolution>, after: seq<Resolution>, trade: nat, release: bool)
    requires Decided(before, trade, release) && Extends(before, after)
    ensures Decided(after, trade, release)
  {
    var i :| 0 <= i < |before| && Decides(before[i], trade, release);
    assert Decides(after[i], trade, release);
  }

  /** A trade only a resolution can move, or nothing at all. */
  predicate Frozen(s: TradeStatus) {
    s.Disputed? || s.TradeReleased? || s.Refunded?
  }

  /** Frozen trades stay, and no trade becomes refunded. */
  predicate LeavesFrozen(db: DB, db': DB) {
    && |db'.trades| >= |db.trades|
    && (forall id | 0 <= id < |db.trades| && Frozen(db.trades[id].status) ::
          db'.trades[id].status == db.trades[id].status)
    && (forall id | 0 <= id < |db'.trades| && db'.trades[id].status.Refunded? ::
          id < |db.trades| && db.trades[id].status.Refunded?)
  }

  lemma TradesKept(k: World, db: DB, a: Action)
    requires !IsDeskAction(a) && !a.DoExpire? && !a.DoResolve?
    ensures Step(k, db, a).trades == db.trades
  {
    hide Ledger.Balance, Entitled, HoldStands, HasCapacity, FindKey, FindTx, FindDeposit, TradingAllowed,
      ConversionPostings;
  }

  lemma DeskLeavesFrozen(k: World, db: DB, a: Action)
    requires IsDeskAction(a) || a.DoExpire?
    ensures LeavesFrozen(db, Step(k, db, a))
  {
    hide Ledger.Balance, Entitled;
  }

  lemma OthersLeaveFrozen(k: World, db: DB, a: Action)
    requires !a.DoResolve?
    ensures LeavesFrozen(db, Step(k, db, a))
  {
    hide Step;
    if IsDeskAction(a) || a.DoExpire? {
      DeskLeavesFrozen(k, db, a);
    } else {
      TradesKept(k, db, a);
    }
  }

  /** A resolution ends a dispute its own way and touches no other trade. */
  lemma ResolveEnds(db: DB, trade: nat, release: bool, checks: Checks)
    ensures var (db', reply) := ResolveTrade(db, trade, release, checks);
      && |db'.trades| == |db.trades|
      && (forall id | 0 <= id < |db.trades| && id != trade :: db'.trades[id] == db.trades[id])
      && (reply.Done? ==>
            && trade < |db.trades| && db.trades[trade].status.Disputed?
            && db'.trades[trade].status == if release then TradeReleased else Refunded)
  {
    hide Ledger.Balance;
  }

  lemma CallExtends(k: World, st: Books, c: Call)
    ensures Extends(st.resolutions, Answer(k, st, c).0.resolutions)
    ensures AllByTwo(st.resolutions) ==> AllByTwo(Answer(k, st, c).0.resolutions)
  {
    hide Step, Perform, Transfer, ConfirmConversion, HasPending, ResolveTrade, TransferOnce, ConvertOnce, ActOnce;
  }

  /** A call that is not an approval leaves disputed and resolved trades alone. */
  lemma CallLeavesFrozen(k: World, st: Books, c: Call)
    requires !c.Approve?
    ensures LeavesFrozen(st.db, Answer(k, st, c).0.db)
  {
    hide Step, Answer, Frozen;
    CallIsStep(k, st, c);
    var actions := Effective(k, st, c);
    if actions != [] {
      OthersLeaveFrozen(k, st.db, actions[0]);
    }
  }

  /** What an approval does: nothing, or it ends one dispute in the proposed way. */
  lemma ApprovalEnds(k: World, st: Books, c: Call)
    requires c.Approve?
    ensures var st' := Answer(k, st, c).0;
      st' == st ||
      (&& c.id < |st.resolutions| && st.resolutions[c.id].approvedBy.None?
       && var r := st.resolutions[c.id];
          && st'.resolutions == st.resolutions[c.id := r.(approvedBy := Some(c.actor))]
          && |st'.db.trades| == |st.db.trades| && r.trade < |st.db.trades| && st.db.trades[r.trade].status.Disputed?
          && st'.db.trades[r.trade].status == (if r.release then TradeReleased else Refunded)
          && forall id | 0 <= id < |st.db.trades| && id != r.trade :: st'.db.trades[id] == st.db.trades[id])
  {
    hide HasPending, ResolveTrade;
    if Answer(k, st, c).0 != st {
      ResolveEnds(st.db, st.resolutions[c.id].trade, st.resolutions[c.id].release, c.checks);
    }
  }

  predicate ResolvedByTwo(st: Books) {
    && AllByTwo(st.resolutions)
    && forall id | 0 <= id < |st.db.trades| && st.db.trades[id].status.Refunded? :: Decided(st.resolutions, id, false)
  }

  lemma AnswerByTwo(k: World, st: Books, c: Call)
    requires ResolvedByTwo(st)
    ensures ResolvedByTwo(Answer(k, st, c).0)
  {
    hide Answer, AllByTwo, Decided, Extends;
    var st' := Answer(k, st, c).0;
    CallExtends(k, st, c);
    if c.Approve? {
      ApprovalEnds(k, st, c);
    } else {
      CallLeavesFrozen(k, st, c);
    }
    forall id | 0 <= id < |st'.db.trades| && st'.db.trades[id].status.Refunded?
      ensures Decided(st'.resolutions, id, false)
    {
      if id < |st.db.trades| && st.db.trades[id].status.Refunded? {
        StillDecided(st.resolutions, st'.resolutions, id, false);
      } else {
        NowDecided(st'.resolutions, c.id, id, false);
      }
    }
  }

  lemma NowDecided(resolutions: seq<Resolution>, i: nat, trade: nat, release: bool)
    requires i < |resolutions| && Decides(resolutions[i], trade, release)
    ensures Decided(resolutions, trade, release)
  {
  }

  /** Over every run a refunded dispute was proposed by one person and approved by another. */
  lemma {:induction false} RefundedByTwo(k: World, controls: Controls, calls: seq<Call>)
    ensures ResolvedByTwo(After(k, controls, calls))
  {
    hide Answer, ResolvedByTwo;
    if calls == [] {
      NothingResolved(controls);
    } else {
      RefundedByTwo(k, controls, calls[..|calls| - 1]);
      AnswerByTwo(k, After(k, controls, calls[..|calls| - 1]), calls[|calls| - 1]);
    }
  }

  lemma NothingResolved(controls: Controls)
    ensures ResolvedByTwo(NewBooks(controls))
  {
  }

  /** Still disputed, or ended by an approved resolution of that kind. */
  predicate EndedByResolution(st: Books, id: nat) {
    id < |st.db.trades| &&
    match st.db.trades[id].status
    case Disputed => true
    case TradeReleased => Decided(st.resolutions, id, true)
    case Refunded => Decided(st.resolutions, id, false)
    case _ => false
  }

  lemma StillEnded(k: World, st: Books, c: Call, id: nat)
    requires EndedByResolution(st, id)
    ensures EndedByResolution(Answer(k, st, c).0, id)
  {
    hide Answer, Decided, Extends, Decides;
    var st' := Answer(k, st, c).0;
    CallExtends(k, st, c);
    if c.Approve? {
      ApprovalEnds(k, st, c);
      if st' != st && st.resolutions[c.id].trade == id {
        ApprovedDecides(st'.resolutions, c.id, id);
      }
    } else {
      CallLeavesFrozen(k, st, c);
    }
    forall release | Decided(st.resolutions, id, release) ensures Decided(st'.resolutions, id, release) {
      StillDecided(st.resolutions, st'.resolutions, id, release);
    }
  }

  lemma ApprovedDecides(resolutions: seq<Resolution>, i: nat, trade: nat)
    requires i < |resolutions| && resolutions[i].trade == trade && resolutions[i].approvedBy.Some?
    ensures Decided(resolutions, trade, resolutions[i].release)
  {
    NowDecided(resolutions, i, trade, resolutions[i].release);
  }

  /**
   A trade once disputed stays disputed, or is released or refunded by a
   resolution that says so, proposed by one person and approved by another.
   */
  lemma {:induction false} DisputeEndsByTwo(k: World, controls: Controls, calls: seq<Call>, n: nat, id: nat)
    requires n <= |calls|
    requires var st := After(k, controls, calls[..n]); id < |st.db.trades| && st.db.trades[id].status.Disputed?
    ensures EndedByResolution(After(k, controls, calls), id) && AllByTwo(After(k, controls, calls).resolutions)
    decreases |calls|
  {
    hide Answer, AllByTwo, Decided;
    RefundedByTwo(k, controls, calls);
    if n == |calls| {
      assert calls[..n] == calls;
    } else {
      var before := calls[..|calls| - 1];
      assert before[..n] == calls[..n];
      DisputeEndsByTwo(k, controls, before, n, id);
      StillEnded(k, After(k, controls, before), calls[|calls| - 1], id);
    }
  }

  // One open proposal at a time.

  predicate Pending(resolutions: seq<Resolution>, i: nat) {
    i < |resolutions| && resolutions[i].approvedBy.None?
  }

  /** Open proposals are of disputed trades, at most one each. */
  ghost predicate PendingOk(st: Books) {
    && (forall i: nat | Pending(st.resolutions, i) ::
          var trade := st.resolutions[i].trade; trade < |st.db.trades| && st.db.trades[trade].status.Disputed?)
    && (forall i: nat, j: nat | Pending(st.resolutions, i) && Pending(st.resolutions, j) ::
          st.resolutions[i].trade == st.resolutions[j].trade ==> i == j)
  }

  /** A new proposal is for a disputed trade that has none open. */
  lemma ProposalAdds(k: World, st: Books, c: Call)
    requires !c.Approve?
    ensures var st' := Answer(k, st, c).0;
      st'.resolutions == st.resolutions ||
      (&& c.Propose? && st'.db == st.db
        && st'.resolutions == st.resolutions + [Resolution(c.trade, c.release, c.actor, None)]
       && c.trade < |st.db.trades| && st.db.trades[c.trade].status.Disputed?
       && forall i: nat | Pending(st.resolutions, i) :: st.resolutions[i].trade != c.trade)
  {
    hide Step, Perform, Transfer, ConfirmConversion, TransferOnce, ConvertOnce, ActOnce;
  }

  lemma AnswerPendingOk(k: World, st: Books, c: Call)
    requires PendingOk(st)
    ensures PendingOk(Answer(k, st, c).0)
  {
    hide Answer;
    var st' := Answer(k, st, c).0;
    if c.Approve? {
      ApprovalEnds(k, st, c);
      assert forall i: nat | Pending(st'.resolutions, i) ::
        Pending(st.resolutions, i) && st'.resolutions[i] == st.resolutions[i];
      assert st' != st ==> Pending(st.resolutions, c.id) && !Pending(st'.resolutions, c.id);
    } else {
      CallLeavesFrozen(k, st, c);
      ProposalAdds(k, st, c);
      forall i: nat | Pending(st'.resolutions, i)
        ensures i < |st.resolutions| ==> Pending(st.resolutions, i) && st'.resolutions[i] == st.resolutions[i]
      {
      }
    }
  }

  /** Over every run an open proposal is of a disputed trade, and a trade has at most one. */
  lemma {:induction false} OneProposal(k: World, controls: Controls, calls: seq<Call>)
    ensures PendingOk(After(k, controls, calls))
  {
    hide Answer, PendingOk;
    if calls == [] {
      NothingPending(controls);
    } else {
      OneProposal(k, controls, calls[..|calls| - 1]);
      AnswerPendingOk(k, After(k, controls, calls[..|calls| - 1]), calls[|calls| - 1]);
    }
  }

  lemma NothingPending(controls: Controls)
    ensures PendingOk(NewBooks(controls))
  {
  }

  /** A proposal is made exactly by somebody with the role, under a new key, for a disputed trade with none open. */
  lemma ProposeExactly(k: World, st: Books, c: Call)
    requires c.Propose?
    ensures var (st', reply) := Answer(k, st, c);
      reply.Done? <==>
      && c.checks.role && (c.actor, c.key) !in st.events && c.trade < |st.db.trades|
      && st.db.trades[c.trade].status == Disputed
      && forall i | 0 <= i < |st.resolutions| :: st.resolutions[i].trade == c.trade ==>
        st.resolutions[i].approvedBy != None
    ensures var (st', reply) := Answer(k, st, c);
      && st'.db == st.db && st'.keys == st.keys
      && st'.resolutions
         == st.resolutions + if reply.Done? then [Resolution(c.trade, c.release, c.actor, None)] else []
  {
  }
}
