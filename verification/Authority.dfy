/** Who may move a withdrawal or a trade, when, and to where; and two signatures on every manual withdrawal. */
module Authority {
  import opened Options
  import opened Sums
  import opened Ledger
  import opened Money
  import opened MoneyLaws
  import opened MoneyRuns

  // Trades.

  predicate OnTrades(a: Action) {
    || a.DoCreate? || a.DoAccept? || a.DoPay? || a.DoDispute? || a.DoRelease? || a.DoCancelTrade? || a.DoExpire?
    || a.DoResolve?
  }

  /** Exactly when an action on a trade takes effect. */
  predicate TradeMay(k: World, db: DB, a: Action)
    requires OnTrades(a)
  {
    if a.DoCreate? then
      && a.checks.asset && a.checks.account && a.trade.amount > 0
      && k.owner(a.trade.sellerAccount) == Some(a.trade.seller)
      && Balance(db.journals, a.trade.sellerAccount, a.trade.asset, Available) >= a.trade.amount
    else
      a.id < |db.trades| &&
      var t := db.trades[a.id];
      match a
      case DoAccept(_, buyer, account, now, _, checks) =>
        && t.status == Open && now < t.offerExpires && buyer != t.seller
        && checks.account && account != "" && k.owner(account) == Some(buyer)
      case DoPay(_, buyer, account, now) =>
        t.status == Accepted && buyer == t.buyer && account == t.buyerAccount && now <= t.deadline
      case DoDispute(_, user, account) =>
        && (t.status == Accepted || t.status == Paid)
        && ((user == t.seller && account == t.sellerAccount) || (user == t.buyer && account == t.buyerAccount))
      case DoRelease(_, user, account) => t.status == Paid && user == t.seller && account == t.sellerAccount
      case DoCancelTrade(_, user, account) => t.status == Open && user == t.seller && account == t.sellerAccount
      case DoExpire(_, now) =>
        (t.status == Open && t.offerExpires <= now) || (t.status == Accepted && t.deadline <= now)
      case DoResolve(_, _, checks) => t.status == Disputed && checks.role
  }

  /** The row afterwards: nothing but the status moves, and an acceptance names the buyer and the deadline. */
  function TradeAfter(a: Action, t: P2PTrade): P2PTrade
    requires OnTrades(a)
  {
    match a
    case DoCreate(_, _) => t.(status := Open, buyer := "", buyerAccount := "")
    case DoAccept(_, buyer, account, _, deadline, _) =>
      t.(status := Accepted, buyer := buyer, buyerAccount := account, deadline := deadline)
    case DoPay(_, _, _, _) => t.(status := Paid)
    case DoDispute(_, _, _) => t.(status := Disputed)
    case DoRelease(_, _, _) => t.(status := TradeReleased)
    case DoCancelTrade(_, _, _) => t.(status := TradeCancelled)
    case DoExpire(_, _) => t.(status := Expired)
    case DoResolve(_, release, _) => t.(status := if release then TradeReleased else Refunded)
  }

  lemma EndHeld(k: World, db: DB, id: nat)
    requires Ok(k, db) && id < |db.trades| && Escrowed(db.trades[id].status)
    ensures Balance(db.journals, db.trades[id].sellerAccount, db.trades[id].asset, Held) >= db.trades[id].amount
    ensures !db.trades[id].status.Open? ==> db.trades[id].buyerAccount != ""
  {
    hide Balance, LedgerOk, HoldsOk, WithdrawalsOk, DepositsOk, TradePosted, TradeUnposted;
    EscrowIsHeld(k, db, id);
    assert TradeOk(k, db.trades[id]);
  }

  /** In every reachable state an action on a trade takes effect exactly when it may, and does just that to its row. */
  lemma TradeStepExactly(k: World, db: DB, a: Action)
    requires Ok(k, db) && OnTrades(a)
    ensures var db' := Step(k, db, a);
      if !TradeMay(k, db, a) then db' == db
      else if a.DoCreate? then db'.trades == db.trades + [TradeAfter(a, a.trade)]
      else db'.trades == db.trades[a.id := TradeAfter(a, db.trades[a.id])]
  {
    hide Step, Ok, TradeMay, TradeAfter;
    if a.DoCreate? || a.DoAccept? || a.DoPay? || a.DoDispute? {
      TurnExactly(k, db, a);
    } else {
      EndExactly(k, db, a);
    }
  }

  lemma TurnExactly(k: World, db: DB, a: Action)
    requires a.DoCreate? || a.DoAccept? || a.DoPay? || a.DoDispute?
    ensures var db' := Step(k, db, a);
      if !TradeMay(k, db, a) then db' == db
      else if a.DoCreate? then db'.trades == db.trades + [TradeAfter(a, a.trade)]
      else db'.trades == db.trades[a.id := TradeAfter(a, db.trades[a.id])]
  {
    hide Balance, Move;
  }

  lemma EndExactly(k: World, db: DB, a: Action)
    requires Ok(k, db) && (a.DoRelease? || a.DoCancelTrade? || a.DoExpire? || a.DoResolve?)
    ensures var db' := Step(k, db, a);
      if !TradeMay(k, db, a) then db' == db else db'.trades == db.trades[a.id := TradeAfter(a, db.trades[a.id])]
  {
    hide Balance, Ok, Move;
    if a.id < |db.trades| && Escrowed(db.trades[a.id].status) {
      EndHeld(k, db, a.id);
    }
  }

  // Withdrawals.

  predicate OnWithdrawals(a: Action) {
    a.DoRequest? || a.DoApprove? || a.DoCancel? || a.DoBegin? || a.DoMark? || a.DoUpdate?
  }

  /** Test-money limits are on. */
  predicate Limited(db: DB) {
    db.controls.limitsReady || db.controls.issuing || db.grants > 0
  }

  predicate WithinLimits(k: World, db: DB, user: string, asset: string, more: nat) {
    Limited(db) ==> Committed(db, user, asset) + more <= CreditedDeposits(k, db, user, asset)
  }

  predicate RequestMay(k: World, db: DB, input: WithdrawalInput, checks: Checks) {
    && input.amount > 0 && input.key != "" && db.controls.withdrawalsEnabled
    && (forall i | 0 <= i < |db.withdrawals| :: db.withdrawals[i].key != input.key)
    && checks.asset && checks.customer && checks.account && k.owner(input.account) == Some(input.user)
    && WithinLimits(k, db, input.user, input.asset, input.amount)
    && Balance(db.journals, input.account, input.asset, Available) >= input.amount
  }

  predicate ApproveMay(db: DB, approver: string, id: nat, checks: Checks) {
    && id < |db.withdrawals| && db.controls.withdrawalsEnabled && checks.role && checks.customer
    && db.withdrawals[id].status == PendingApproval && approver !in db.withdrawals[id].approvals
  }

  /** A worker's item is the row's own, for the user's vault. */
  predicate ItemRight(k: World, w: Withdrawal, item: Item) {
    && item.user == w.user && item.asset == w.asset && item.destination == w.destination && item.amount == w.amount
    && item.vault == k.vault(w.user) && item.custodyAsset == k.custodyAsset(w.asset)
  }

  predicate BeginMay(k: World, db: DB, provider: string, item: Item, evidence: Option<Evidence>, checks: Checks) {
    && item.id < |db.withdrawals| && provider != "" && db.controls.withdrawalsEnabled
    && checks.asset && checks.wallet && checks.customer && checks.account
    && var w := db.withdrawals[item.id];
       && w.status == Approved && w.dispatch == None && w.providerTx == "" && ItemRight(k, w, item)
       && WithinLimits(k, db, w.user, w.asset, 0)
       && (Limited(db) ==> evidence.Some?)
       && (evidence.Some? ==> checks.route && checks.timely && Room(db, item, evidence.value))
  }

  /** What unended reservations claim of an asset in a vault. */
  function Reserved(rows: seq<Withdrawal>, vault: string, asset: string): int {
    if rows == [] then 0
    else
      var w := rows[|rows| - 1];
      Reserved(rows[..|rows| - 1], vault, asset)
      + if w.reservation == None || w.terminal != None || w.reservation.value.vault != vault then 0
        else
          (if w.reservation.value.asset == asset then w.reservation.value.amount else 0)
          + if w.reservation.value.feeAsset == asset then w.reservation.value.fee else 0
  }

  /** The fee is within its limit, and what was seen covers the reservations, the amount and the fee. */
  predicate Room(db: DB, item: Item, e: Evidence) {
    && e.feeRequired <= e.maxFee
    && var amount := Reserved(db.withdrawals, item.vault, item.custodyAsset) + item.amount;
       if item.custodyAsset == e.feeAsset then
         amount + e.feeRequired <= e.assetAvailable && e.assetAvailable == e.feeAvailable
       else
         && amount <= e.assetAvailable
         && Reserved(db.withdrawals, item.vault, e.feeAsset) + e.feeRequired <= e.feeAvailable
  }

  lemma {:induction false} ReservedOpen(rows: seq<Withdrawal>, vault: string, asset: string)
    ensures OpenCapacity(rows, vault, asset) == Reserved(rows, vault, asset)
  {
    if rows != [] {
      var init := rows[..|rows| - 1];
      ReservedOpen(init, vault, asset);
      assert OpenWeights(rows, vault, asset)[..|init|] == OpenWeights(init, vault, asset);
    }
  }

  lemma RoomExactly(db: DB, item: Item, e: Evidence)
    ensures HasCapacity(db, item, e) <==> Room(db, item, e)
  {
    hide OpenCapacity, Reserved;
    ReservedOpen(db.withdrawals, item.vault, item.custodyAsset);
    ReservedOpen(db.withdrawals, item.vault, e.feeAsset);
  }

  predicate MarkMay(db: DB, id: nat, tx: string) {
    && id < |db.withdrawals| && tx != "" && db.withdrawals[id].status == Approved && db.withdrawals[id].providerTx == ""
    && forall i | 0 <= i < |db.withdrawals| :: db.withdrawals[i].providerTx != tx
  }

  /** The provider's final word on the withdrawal it knows under this id. */
  predicate UpdateMay(db: DB, id: nat, tx: string, status: ProviderStatus) {
    && id < |db.withdrawals| && tx != "" && db.withdrawals[id].providerTx == tx
    && (status == Finished || status == Broken)
    && db.withdrawals[id].status == Submitted
  }

  function Booked(item: Item, evidence: Option<Evidence>): Option<Reservation> {
    match evidence
    case None => None
    case Some(e) => Some(Reservation(item.vault, item.custodyAsset, item.amount, e.feeAsset, e.feeRequired))
  }

  /** What one action makes of one row. */
  ghost predicate WithdrawalMoves(k: World, db: DB, a: Action, id: nat, w: Withdrawal, w': Withdrawal) {
    if a.DoApprove? && a.id == id && ApproveMay(db, a.approver, id, a.checks) then
      && w'.approvals == w.approvals + {a.approver}
      && w' == w.(approvals := w'.approvals, status := if |w'.approvals| >= 2 then Approved else PendingApproval)
    else if a.DoCancel? && a.id == id && a.user == w.user && w.status == PendingApproval
      then w' == w.(status := Cancelled)
    else if a.DoBegin? && a.item.id == id && BeginMay(k, db, a.provider, a.item, a.evidence, a.checks) then
      w' == w.(dispatch := Some(a.provider), reservation := Booked(a.item, a.evidence))
    else if a.DoMark? && a.id == id && MarkMay(db, id, a.tx) then w' == w.(status := Submitted, providerTx := a.tx)
    else if a.DoUpdate? && UpdateMay(db, id, a.tx, a.status) then
      && w' == w.(status := w'.status, terminal := w'.terminal)
      && w'.status == (if a.status == Finished then Completed else Failed)
      && w'.terminal == if w.reservation == None then None
        else Some(if a.status == Finished then Consumed else Released)
    else w' == w
  }

  lemma ApproveExactly(k: World, db: DB, a: Action, id: nat)
    requires a.DoApprove? && id < |db.withdrawals|
    ensures id < |Step(k, db, a).withdrawals|
    ensures WithdrawalMoves(k, db, a, id, db.withdrawals[id], Step(k, db, a).withdrawals[id])
  {
    hide Move, BeginMay, MarkMay, UpdateMay;
    var (db', reply) := ApproveWithdrawal(db, a.approver, a.id, a.checks);
    if a.id == id && ApproveMay(db, a.approver, id, a.checks) {
      assert db'.withdrawals[id].approvals == db.withdrawals[id].approvals + {a.approver};
    }
  }

  lemma CancelExactly(k: World, db: DB, a: Action, id: nat)
    requires a.DoCancel? && id < |db.withdrawals|
    ensures id < |Step(k, db, a).withdrawals|
    ensures WithdrawalMoves(k, db, a, id, db.withdrawals[id], Step(k, db, a).withdrawals[id])
  {
    hide Move, BeginMay, MarkMay, UpdateMay, ApproveMay;
  }

  lemma BeginExactly(k: World, db: DB, a: Action, id: nat)
    requires a.DoBegin? && Ok(k, db) && id < |db.withdrawals|
    ensures id < |Step(k, db, a).withdrawals|
    ensures WithdrawalMoves(k, db, a, id, db.withdrawals[id], Step(k, db, a).withdrawals[id])
  {
    hide HasCapacity, Committed, CreditedDeposits, HoldStands, Ok, Room;
    if a.evidence.Some? {
      RoomExactly(db, a.item, a.evidence.value);
    }
    if a.item.id < |db.withdrawals| && db.withdrawals[a.item.id].status.Approved? {
      HoldAlwaysStands(k, db, a.item.id);
    }
  }

  lemma MarkExactly(k: World, db: DB, a: Action, id: nat)
    requires a.DoMark? && id < |db.withdrawals|
    ensures id < |Step(k, db, a).withdrawals|
    ensures WithdrawalMoves(k, db, a, id, db.withdrawals[id], Step(k, db, a).withdrawals[id])
  {
    hide FindTx;
  }

  lemma UpdateExactly(k: World, db: DB, a: Action, id: nat)
    requires a.DoUpdate? && Ok(k, db) && id < |db.withdrawals|
    ensures id < |Step(k, db, a).withdrawals|
    ensures WithdrawalMoves(k, db, a, id, db.withdrawals[id], Step(k, db, a).withdrawals[id])
  {
    hide FindTx, Move, LedgerOk, HoldsOk, TradesOk, DepositsOk, WithdrawalPosted, WithdrawalUnposted;
    var found := FindTx(db.withdrawals, a.tx);
    if found >= 0 {
      assert WithdrawalOk(k, db.withdrawals[found]);
    }
    assert WithdrawalOk(k, db.withdrawals[id]);
  }

  lemma RowsKept(k: World, db: DB, a: Action)
    requires !OnWithdrawals(a)
    ensures Step(k, db, a).withdrawals == db.withdrawals
  {
    hide Balance, Entitled, FindDeposit, TradingAllowed, ConversionPostings, Move;
  }

  /** A request adds one row exactly when it may: approved at once while approval is automatic, otherwise pending. */
  lemma RequestExactly(k: World, db: DB, input: WithdrawalInput, checks: Checks)
    ensures var db' := Step(k, db, DoRequest(input, checks));
      if !RequestMay(k, db, input, checks) then db' == db
      else
        && |db'.withdrawals| == |db.withdrawals| + 1 && db'.withdrawals[..|db.withdrawals|] == db.withdrawals
        && var w := db'.withdrawals[|db.withdrawals|];
           && w.user == input.user && w.account == input.account && w.asset == input.asset && w.amount == input.amount
           && w.destination == input.destination && w.key == input.key
           && w.status == (if db.controls.automatic then Approved else PendingApproval)
           && w.approvals == {} && w.providerTx == "" && w.dispatch == None && w.reservation == None
           && w.terminal == None
  {
    hide Balance, Committed, CreditedDeposits, FindKey, Move;
  }

  /** In every reachable state every action moves every withdrawal exactly so. */
  lemma WithdrawalStepExactly(k: World, db: DB, a: Action, id: nat)
    requires Ok(k, db) && id < |db.withdrawals|
    ensures id < |Step(k, db, a).withdrawals|
    ensures WithdrawalMoves(k, db, a, id, db.withdrawals[id], Step(k, db, a).withdrawals[id])
  {
    hide Step, Ok, WithdrawalMoves, RequestMay;
    match a
    case DoRequest(input, checks) =>
      RequestExactly(k, db, input, checks);
      OtherMoves(k, db, a, id);
    case DoApprove(_, _, _) => ApproveExactly(k, db, a, id);
    case DoCancel(_, _) => CancelExactly(k, db, a, id);
    case DoBegin(_, _, _, _) => BeginExactly(k, db, a, id);
    case DoMark(_, _) => MarkExactly(k, db, a, id);
    case DoUpdate(_, _) => UpdateExactly(k, db, a, id);
    case _ =>
      RowsKept(k, db, a);
      OtherMoves(k, db, a, id);
  }

  lemma OtherMoves(k: World, db: DB, a: Action, id: nat)
    requires id < |db.withdrawals| && (a.DoRequest? || !OnWithdrawals(a))
    ensures WithdrawalMoves(k, db, a, id, db.withdrawals[id], db.withdrawals[id])
  {
  }

  // Two signatures.

  /** Action n of the run is the request that made withdrawal `id`. */
  ghost predicate RequestedBy(k: World, controls: Controls, actions: seq<Action>, n: nat, id: nat) {
    && n < |actions| && |Run(k, controls, actions[..n]).withdrawals| == id
    && |Run(k, controls, actions[..n + 1]).withdrawals| == id + 1
  }

  /** Somebody with the role signs the withdrawal. */
  predicate Signs(a: Action, approver: string, id: nat) {
    a.DoApprove? && a.approver == approver && a.id == id && a.checks.role
  }

  predicate SignedSince(actions: seq<Action>, n: nat, approver: string, id: nat) {
    exists i :: n < i < |actions| && Signs(actions[i], approver, id)
  }

  /**
   Pending with at most one signature, or cancelled, or past approval with at least
   two; every signature was given.
   */
  predicate Signed(actions: seq<Action>, n: nat, id: nat, w: Withdrawal) {
    && (forall p | p in w.approvals :: SignedSince(actions, n, p, id))
    && (w.status == PendingApproval ==> |w.approvals| <= 1)
    && (w.status != PendingApproval && w.status != Cancelled ==> |w.approvals| >= 2)
  }

  lemma SignedStill(actions: seq<Action>, n: nat, approver: string, id: nat, a: Action)
    requires SignedSince(actions, n, approver, id)
    ensures SignedSince(actions + [a], n, approver, id)
  {
    var i :| n < i < |actions| && Signs(actions[i], approver, id);
    assert Signs((actions + [a])[i], approver, id);
  }

  lemma SignedNext(k: World, db: DB, actions: seq<Action>, n: nat, id: nat, a: Action, w: Withdrawal, w': Withdrawal)
    requires n < |actions| && Signed(actions, n, id, w) && id < |db.withdrawals| && db.withdrawals[id] == w
    requires WithdrawalMoves(k, db, a, id, w, w')
    ensures Signed(actions + [a], n, id, w')
  {
    hide BeginMay, MarkMay, UpdateMay, SignedSince;
    forall p | p in w'.approvals ensures SignedSince(actions + [a], n, p, id) {
      if p in w.approvals {
        SignedStill(actions, n, p, id, a);
      } else {
        SignedLast(actions, n, p, id, a);
      }
    }
    PastApproval(db, id, a);
  }

  lemma PastApproval(db: DB, id: nat, a: Action)
    requires id < |db.withdrawals|
    ensures (a.DoMark? && MarkMay(db, id, a.tx)) || (a.DoUpdate? && UpdateMay(db, id, a.tx, a.status)) ==>
      db.withdrawals[id].status == Approved || db.withdrawals[id].status == Submitted
  {
  }

  lemma SignedLast(actions: seq<Action>, n: nat, approver: string, id: nat, a: Action)
    requires n < |actions| && Signs(a, approver, id)
    ensures SignedSince(actions + [a], n, approver, id)
  {
    assert Signs((actions + [a])[|actions|], approver, id);
  }

  lemma SignedFirst(k: World, controls: Controls, actions: seq<Action>, id: nat)
    requires actions != [] && RequestedBy(k, controls, actions, |actions| - 1, id)
    requires !Run(k, controls, actions[..|actions| - 1]).controls.automatic
    ensures id < |Run(k, controls, actions).withdrawals|
    ensures Signed(actions, |actions| - 1, id, Run(k, controls, actions).withdrawals[id])
  {
    hide Balance, Committed, CreditedDeposits, RequestMay;
    var n, a := |actions| - 1, actions[|actions| - 1];
    var db := Run(k, controls, actions[..n]);
    assert actions[..n + 1] == actions;
    OnlyRequestsAdd(k, db, a);
    RequestExactly(k, db, a.input, a.checks);
  }

  lemma OnlyRequestsAdd(k: World, db: DB, a: Action)
    ensures a.DoRequest? || |Step(k, db, a).withdrawals| == |db.withdrawals|
  {
    hide Step;
    if !OnWithdrawals(a) {
      RowsKept(k, db, a);
    } else if !a.DoRequest? {
      OthersAddNone(k, db, a);
    }
  }

  lemma OthersAddNone(k: World, db: DB, a: Action)
    requires OnWithdrawals(a) && !a.DoRequest?
    ensures |Step(k, db, a).withdrawals| == |db.withdrawals|
  {
    hide HasCapacity, Entitled, HoldStands, FindTx, Move;
  }

  lemma {:induction false} RunSigned(k: World, controls: Controls, actions: seq<Action>, n: nat, id: nat)
    requires WorldOk(k) && RequestedBy(k, controls, actions, n, id)
    requires !Run(k, controls, actions[..n]).controls.automatic
    ensures id < |Run(k, controls, actions).withdrawals|
    ensures Signed(actions, n, id, Run(k, controls, actions).withdrawals[id])
    decreases |actions|
  {
    hide Step, Ok, Signed, WithdrawalMoves;
    var before, a := actions[..|actions| - 1], actions[|actions| - 1];
    assert before + [a] == actions;
    if n == |actions| - 1 {
      assert actions[..n + 1] == actions;
      SignedFirst(k, controls, actions, id);
    } else {
      assert before[..n] == actions[..n] && before[..n + 1] == actions[..n + 1];
      RunSigned(k, controls, before, n, id);
      RunOk(k, controls, before);
      var db := Run(k, controls, before);
      WithdrawalStepExactly(k, db, a, id);
      SignedNext(k, db, before, n, id, a, db.withdrawals[id], Step(k, db, a).withdrawals[id]);
    }
  }

  lemma TwoOf(s: set<string>) returns (p: string, q: string)
    requires |s| >= 2
    ensures p in s && q in s && p != q
  {
    p :| p in s;
    assert |s - {p}| == |s| - 1;
    q :| q in s - {p};
  }

  /**
   A withdrawal requested while approval was not automatic: once it is approved,
   submitted, ended by the provider or dispatched, two different people with the
   role have signed it since; while it is pending, at most one has.
   */
  lemma ApprovedByTwo(k: World, controls: Controls, actions: seq<Action>, n: nat, id: nat)
    requires WorldOk(k) && RequestedBy(k, controls, actions, n, id)
    requires !Run(k, controls, actions[..n]).controls.automatic
    ensures id < |Run(k, controls, actions).withdrawals|
    ensures var w := Run(k, controls, actions).withdrawals[id];
      && (w.status == PendingApproval ==> |w.approvals| <= 1)
      && ((w.status != PendingApproval && w.status != Cancelled) || w.dispatch.Some? ==>
            exists p, q :: p != q && SignedSince(actions, n, p, id) && SignedSince(actions, n, q, id))
  {
    hide Run, SignedSince, LedgerOk, HoldsOk, TradesOk, DepositsOk, WithdrawalPosted, WithdrawalUnposted;
    RunSigned(k, controls, actions, n, id);
    RunOk(k, controls, actions);
    var w := Run(k, controls, actions).withdrawals[id];
    assert WithdrawalOk(k, w);
    if (w.status != PendingApproval && w.status != Cancelled) || w.dispatch.Some? {
      var p, q := TwoOf(w.approvals);
      assert SignedSince(actions, n, p, id) && SignedSince(actions, n, q, id);
    }
  }

  // The buyer of a trade.

  predicate BuyerRight(k: World, t: P2PTrade) {
    && (t.status == Open || t.buyerAccount != "" || t.status == TradeCancelled || t.status == Expired)
    && (t.buyerAccount != "" ==> k.owner(t.buyerAccount) == Some(t.buyer) && t.buyer != t.seller)
  }

  predicate BuyersRight(k: World, db: DB) {
    forall i | 0 <= i < |db.trades| :: BuyerRight(k, db.trades[i])
  }

  lemma BuyersNext(k: World, db: DB, a: Action)
    requires Ok(k, db) && BuyersRight(k, db)
    ensures BuyersRight(k, Step(k, db, a))
  {
    hide Step, Ok, Balance;
    if OnTrades(a) {
      TradeStepExactly(k, db, a);
    } else {
      TradesElsewhere(k, db, a);
    }
  }

  lemma TradesElsewhere(k: World, db: DB, a: Action)
    requires !OnTrades(a)
    ensures Step(k, db, a).trades == db.trades
  {
    hide Balance, Entitled, HoldStands, HasCapacity, FindKey, FindTx, FindDeposit, TradingAllowed, ConversionPostings,
      Move;
  }

  /** Over every run a released or refunded trade has a buyer other than the seller, who owns the buyer's account. */
  lemma {:induction false} BuyerIsOwner(k: World, controls: Controls, actions: seq<Action>)
    requires WorldOk(k)
    ensures BuyersRight(k, Run(k, controls, actions))
  {
    hide Step, Ok, BuyerRight;
    if actions != [] {
      var before := actions[..|actions| - 1];
      BuyerIsOwner(k, controls, before);
      RunOk(k, controls, before);
      BuyersNext(k, Run(k, controls, before), actions[|actions| - 1]);
    }
  }

  // Transfers, conversions and deposits.

  /** A transfer happens exactly when its sender owns the account and it covers the amount. */
  lemma TransferExactly(k: World, db: DB, a: Action)
    requires a.DoTransfer?
    ensures Step(k, db, a) != db <==>
      && a.amount > 0 && a.checks.asset && a.checks.account && k.owner(a.from) == Some(a.user)
      && Balance(db.journals, a.from, a.asset, Available) >= a.amount
  {
    hide Balance, Move;
  }

  /** A quote settles exactly once, for its own user, in time, and if both sides can pay. */
  lemma ConvertExactly(k: World, db: DB, a: Action)
    requires a.DoConvert?
    ensures var db' := Step(k, db, a);
      if !(&& a.id < |db.quotes| && a.checks.timely && a.checks.asset && a.checks.account
           && var q := db.quotes[a.id];
              && !q.confirmed && q.user == a.user && k.owner(q.account) == Some(a.user)
              && q.input > 0 && q.output > 0 && q.fee > 0
              && Balance(db.journals, q.account, q.from, Available) >= q.input
              && Balance(db.journals, k.treasury(q.to), q.to, Available) >= q.output + q.fee)
      then db' == db
      else db'.quotes == db.quotes[a.id := db.quotes[a.id].(confirmed := true)]
  {
    hide Balance, ConversionPostings;
  }

  /** The row after an observation, whatever it was before. */
  function Observed(before: Option<Deposit>, o: Observation): Deposit {
    match before
    case None =>
      var status := if o.failed then Reorged else if o.confirmations < o.required then Confirming else Credited;
      Deposit(o.tx, o.index, o.user, o.asset, o.amount, o.confirmations, o.required, status,
              if status == Credited then RiskApproved else NotStarted, o.hash)
    case Some(d) =>
      var final := d.status == Credited || d.status == Reorged || d.status == Rejected;
      var enough := !final && !o.failed && o.confirmations >= o.required;
      Deposit(d.tx, d.index, d.user, d.asset, d.amount,
              if o.confirmations > d.confirmations then o.confirmations else d.confirmations, d.required,
              if final then d.status
              else if o.failed then Reorged
              else if !enough then Confirming
              else if d.risk == NotStarted then Credited else PendingReview,
              if enough && d.risk == NotStarted then RiskApproved else d.risk,
              if o.hash == "" then d.hash else o.hash)
  }

  /** An observation changes its own row so, or nothing at all if it is nobody's or what it should credit cannot be. */
  lemma ObserveExactly(k: World, db: DB, o: Observation, matched: bool, funding: Option<string>, id: nat)
    requires Ok(k, db)
    requires id <= |db.deposits|
      && (id < |db.deposits| ==> db.deposits[id].tx == o.tx && db.deposits[id].index == o.index)
    requires id == |db.deposits| ==>
      forall i | 0 <= i < id :: db.deposits[i].tx != o.tx || db.deposits[i].index != o.index
    ensures var db' := Step(k, db, DoObserve(o, matched, funding));
      var before := if id < |db.deposits| then Some(db.deposits[id]) else None;
      var d := Observed(before, o);
      var credits := d.status == Credited && (before.None? || before.value.status != Credited);
      if !matched || (credits && !(funding.Some? && k.owner(funding.value) == Some(d.user) && d.amount > 0))
        then db' == db
      else db'.deposits == if id < |db.deposits| then db.deposits[id := d] else db.deposits + [d]
  {
    hide Move, LedgerOk, HoldsOk, TradesOk, WithdrawalsOk, DepositPosted, FindDeposit;
    var i := FindDeposit(db.deposits, o.tx, o.index);
    assert i == if id < |db.deposits| then id else -1;
  }

  /** The manual path credits a deposit under review exactly when a reviewer with the role may. */
  lemma CreditExactly(k: World, db: DB, a: Action)
    requires a.DoCredit?
    ensures var db' := Step(k, db, a);
      if !(&& a.id < |db.deposits| && a.checks.role && a.checks.customer
           && var d := db.deposits[a.id];
              && d.status == PendingReview && (d.risk == NotStarted || d.risk == RiskPending) && d.amount > 0
              && a.funding.Some? && k.owner(a.funding.value) == Some(d.user))
      then db' == db
      else db'.deposits == db.deposits[a.id := db.deposits[a.id].(status := Credited, risk := RiskApproved)]
  {
    hide Move;
  }

  // What the two sums mean.

  /** What a user has asked for and not got back, row by row. */
  function Outstanding(db: DB, user: string, asset: string): (amounts: seq<int>)
    ensures |amounts| == |db.withdrawals|
    ensures forall i | 0 <= i < |amounts| ::
      amounts[i] == if db.withdrawals[i].user == user && db.withdrawals[i].asset == asset
                       && db.withdrawals[i].status != Failed && db.withdrawals[i].status != Cancelled
                    then db.withdrawals[i].amount else 0
  {
    seq(|db.withdrawals|, i requires 0 <= i < |db.withdrawals| =>
          var w := db.withdrawals[i];
          if w.user == user && w.asset == asset && w.status != Failed && w.status != Cancelled then w.amount else 0)
  }

  /** In every reachable state what is committed is what was asked for and neither failed nor was cancelled. */
  lemma CommittedMeans(k: World, db: DB, user: string, asset: string)
    requires Ok(k, db)
    ensures Committed(db, user, asset) == Sum(Outstanding(db, user, asset))
  {
    hide LedgerOk, HoldsOk, TradesOk, DepositsOk, CountOf, WithdrawalOk, Sum;
    var weights, amounts := CommittedWeights(db, user, asset), Outstanding(db, user, asset);
    forall i | 0 <= i < |weights| ensures weights[i] == amounts[i] {
      assert WithdrawalPosted(db.journals, i, db.withdrawals[i]);
      EndedCompensated(db.journals, i, db.withdrawals[i]);
    }
    assert weights == amounts;
  }

  lemma EndedCompensated(journals: seq<Journal>, id: nat, w: Withdrawal)
    requires WithdrawalPosted(journals, id, w)
    ensures w.status.Failed? || w.status.Cancelled? ==> Compensated(journals, id)
  {
    hide CountOf;
    CountFound(journals, WithdrawalRelease(id));
    CountFound(journals, WithdrawalCancel(id));
  }

  lemma {:induction false} CountFound(journals: seq<Journal>, source: Source)
    ensures CountOf(journals, source) > 0 ==> exists i :: 0 <= i < |journals| && journals[i].source == source
  {
    if journals != [] {
      CountFound(journals[..|journals| - 1], source);
    }
  }

  /** What a user's credited deposits come to: approved, confirmed as often as required, and with a hash. */
  function Earned(db: DB, user: string, asset: string): (amounts: seq<int>)
    ensures |amounts| == |db.deposits|
    ensures forall i | 0 <= i < |amounts| ::
      amounts[i] == if Earns(db.deposits[i], user, asset) then db.deposits[i].amount else 0
  {
    seq(|db.deposits|, i requires 0 <= i < |db.deposits| =>
          if Earns(db.deposits[i], user, asset) then db.deposits[i].amount else 0)
  }

  predicate Earns(d: Deposit, user: string, asset: string) {
    && d.user == user && d.asset == asset && d.status == Credited && d.risk == RiskApproved
    && d.confirmations >= d.required && d.hash != ""
  }

  /**
   In every reachable state the entitlement is the sum of those deposits: each was
   credited by a journal of its own.
   */
  lemma CreditedMeans(k: World, db: DB, user: string, asset: string)
    requires Ok(k, db)
    ensures CreditedDeposits(k, db, user, asset) == Sum(Earned(db, user, asset))
  {
    hide LedgerOk, HoldsOk, TradesOk, WithdrawalsOk, CountOf, Credits, Sum;
    var weights, amounts := CreditedWeights(k, db, user, asset), Earned(db, user, asset);
    forall i | 0 <= i < |weights| ensures weights[i] == amounts[i] {
      assert DepositPosted(k, db.journals, i, db.deposits[i]);
    }
    assert weights == amounts;
  }
}
