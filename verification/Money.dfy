/** The tables behind the money protocols, and every transaction as a function of them. */
module Money {
  import opened Arithmetic
  import opened Options
  import opened Sums
  import opened Ledger

  /** Facts that never change: who owns an account, and which system accounts, vaults and custody assets are used. */
  datatype World = World(
    owner: string -> Option<string>, clearing: string -> string, treasury: string -> string,
    conversionFees: string -> string, issuance: string -> string,
    vault: string -> string, custodyAsset: string -> string)

  /** System accounts have no owner. */
  ghost predicate WorldOk(k: World) {
    forall asset: string ::
      && k.owner(k.clearing(asset)).None? && k.owner(k.treasury(asset)).None?
      && k.owner(k.conversionFees(asset)).None? && k.owner(k.issuance(asset)).None?
  }

  datatype WithdrawalStatus = PendingApproval | Approved | Submitted | Completed | Failed | Cancelled
  datatype CapacityOutcome = Consumed | Released
  datatype Reservation = Reservation(vault: string, asset: string, amount: nat, feeAsset: string, fee: nat)

  /**
   A withdrawal with the rows that share its id: approvals, the dispatch and
   its capacity reservation, the reservation's terminal event. An empty
   provider transaction id stands for none.
   */
  datatype Withdrawal = Withdrawal(
    user: string, account: string, asset: string, destination: string, amount: nat, key: string,
    status: WithdrawalStatus, providerTx: string, approvals: set<string>,
    dispatch: Option<string>, reservation: Option<Reservation>, terminal: Option<CapacityOutcome>)

  datatype DepositStatus = Confirming | PendingReview | Credited | Reorged | Rejected
  datatype RiskStatus = NotStarted | RiskPending | RiskApproved | RiskRejected
  datatype Deposit = Deposit(
    tx: string, index: string, user: string, asset: string, amount: nat,
    confirmations: nat, required: nat, status: DepositStatus, risk: RiskStatus, hash: string)

  datatype TradeStatus = Open | Accepted | Paid | Disputed | TradeReleased | Refunded | TradeCancelled | Expired
  datatype P2PTrade = P2PTrade(
    seller: string, sellerAccount: string, buyer: string, buyerAccount: string, asset: string, amount: nat,
    status: TradeStatus, offerExpires: int, deadline: int)

  datatype Quote = Quote(
    user: string, account: string, from: string, to: string, input: nat, output: nat, fee: nat, confirmed: bool)

  /** The test-money limits are in force while either flag is set. */
  datatype Controls = Controls(withdrawalsEnabled: bool, automatic: bool, limitsReady: bool, issuing: bool)

  datatype DB = DB(
    journals: seq<Journal>, withdrawals: seq<Withdrawal>, deposits: seq<Deposit>,
    trades: seq<P2PTrade>, quotes: seq<Quote>, controls: Controls, grants: nat)

  function NewDB(controls: Controls): DB {
    DB([], [], [], [], [], controls, 0)
  }

  function Post(db: DB, source: Source, postings: seq<Posting>): DB {
    db.(journals := db.journals + [Journal(source, postings)])
  }

  // Entitlement.

  predicate Enforced(db: DB) {
    db.controls.limitsReady || db.controls.issuing || db.grants > 0
  }

  predicate Compensated(journals: seq<Journal>, id: nat) {
    exists i :: 0 <= i < |journals|
      && (journals[i].source == WithdrawalRelease(id) || journals[i].source == WithdrawalCancel(id))
  }

  /** A withdrawal counts until it failed or was cancelled and its hold was given back. */
  function CommittedWeights(db: DB, user: string, asset: string): (weights: seq<int>)
    ensures |weights| == |db.withdrawals|
  {
    seq(|db.withdrawals|, i requires 0 <= i < |db.withdrawals| =>
          var w := db.withdrawals[i];
          if w.user == user && w.asset == asset
            && !((w.status.Failed? || w.status.Cancelled?) && Compensated(db.journals, i))
          then w.amount else 0)
  }

  function Committed(db: DB, user: string, asset: string): int {
    Sum(CommittedWeights(db, user, asset))
  }

  /** A journal that credits exactly this deposit to its user. */
  predicate Credits(k: World, j: Journal, id: nat, d: Deposit) {
    && j.source == DepositCredit(id)
    && (forall i | 0 <= i < |j.postings| :: j.postings[i].asset == d.asset)
    && Entered(k, j.postings, Some(d.user), true) == d.amount
    && EnteredByAll(j.postings, true) == d.amount && EnteredByAll(j.postings, false) == d.amount
  }

  /** What the postings of one direction add up to, on accounts with this owner. */
  function Entered(k: World, postings: seq<Posting>, owner: Option<string>, credit: bool): int {
    if postings == [] then 0
    else
      var p := postings[0];
      (if p.credit == credit && k.owner(p.account) == owner then p.amount else 0)
        + Entered(k, postings[1..], owner, credit)
  }

  function EnteredByAll(postings: seq<Posting>, credit: bool): int {
    if postings == [] then 0
    else (if postings[0].credit == credit then postings[0].amount else 0) + EnteredByAll(postings[1..], credit)
  }

  predicate Confirmed(k: World, db: DB, id: nat)
    requires id < |db.deposits|
  {
    var d := db.deposits[id];
    && d.status.Credited? && d.risk.RiskApproved? && d.confirmations >= d.required && d.hash != ""
    && exists i :: 0 <= i < |db.journals| && Credits(k, db.journals[i], id, d)
  }

  function CreditedWeights(k: World, db: DB, user: string, asset: string): (weights: seq<int>)
    ensures |weights| == |db.deposits|
  {
    seq(|db.deposits|, i requires 0 <= i < |db.deposits| =>
          if db.deposits[i].user == user && db.deposits[i].asset == asset && Confirmed(k, db, i)
            then db.deposits[i].amount else 0)
  }

  /** The user's confirmed, credited deposits of the asset. */
  function CreditedDeposits(k: World, db: DB, user: string, asset: string): int {
    Sum(CreditedWeights(k, db, user, asset))
  }

  predicate Entitled(k: World, db: DB, user: string, asset: string, amount: nat) {
    Enforced(db) ==> Committed(db, user, asset) + amount <= CreditedDeposits(k, db, user, asset)
  }

  // Requesting, approving and cancelling a withdrawal.

  datatype WithdrawalInput = WithdrawalInput(
    user: string, account: string, asset: string, destination: string, amount: nat, key: string)

  /** Eligibility read from tables outside this model. */
  datatype Checks = Checks(asset: bool, customer: bool, account: bool, role: bool, wallet: bool, route: bool,
                           timely: bool)

  datatype Reply = Created(id: nat) | Duplicate(id: nat) | Done | NotClaimed | Refused

  /** Position of the withdrawal with this idempotency key, or -1. */
  function FindKey(withdrawals: seq<Withdrawal>, key: string): (i: int)
    ensures -1 <= i < |withdrawals|
    ensures i >= 0 ==> withdrawals[i].key == key
    ensures i == -1 ==> forall j | 0 <= j < |withdrawals| :: withdrawals[j].key != key
  {
    if withdrawals == [] then -1
    else
      var last := |withdrawals| - 1;
      if withdrawals[last].key == key then last else FindKey(withdrawals[..last], key)
  }

  function NewWithdrawal(db: DB, input: WithdrawalInput): Withdrawal {
    Withdrawal(input.user, input.account, input.asset, input.destination, input.amount, input.key,
               if db.controls.automatic then Approved else PendingApproval, "", {}, None, None, None)
  }

  function HoldPostings(account: string, asset: string, amount: nat): seq<Posting> {
    Move(asset, amount, account, Available, account, Held)
  }

  function UnholdPostings(account: string, asset: string, amount: nat): seq<Posting> {
    Move(asset, amount, account, Held, account, Available)
  }

  predicate MayRequest(k: World, db: DB, input: WithdrawalInput, checks: Checks) {
    && checks.asset && Entitled(k, db, input.user, input.asset, input.amount)
    && checks.customer && k.owner(input.account) == Some(input.user) && checks.account
    && Balance(db.journals, input.account, input.asset, Available) >= input.amount
  }

  function RequestWithdrawal(k: World, db: DB, input: WithdrawalInput, checks: Checks): (DB, Reply) {
    if input.amount == 0 || input.key == "" || !db.controls.withdrawalsEnabled then (db, Refused)
    else
      var i := FindKey(db.withdrawals, input.key);
      if i >= 0 then
        var w := db.withdrawals[i];
        if w.user == input.user && w.account == input.account && w.asset == input.asset
           && w.destination == input.destination && w.amount == input.amount
        then (db, Duplicate(i)) else (db, Refused)
      else if !MayRequest(k, db, input, checks) then (db, Refused)
      else
        var id := |db.withdrawals|;
        (Post(db.(withdrawals := db.withdrawals + [NewWithdrawal(db, input)]), WithdrawalHold(id),
              HoldPostings(input.account, input.asset, input.amount)), Created(id))
  }

  function SetWithdrawal(db: DB, id: nat, w: Withdrawal): DB
    requires id < |db.withdrawals|
  {
    db.(withdrawals := db.withdrawals[id := w])
  }

  /** Two different approvers make a pending withdrawal approved. */
  function ApproveWithdrawal(db: DB, approver: string, id: nat, checks: Checks): (DB, Reply) {
    if !db.controls.withdrawalsEnabled || !checks.role || id >= |db.withdrawals| then (db, Refused)
    else
      var w := db.withdrawals[id];
      if !w.status.PendingApproval? || !checks.customer || approver in w.approvals then (db, Refused)
      else
        var approvals := w.approvals + {approver};
        (SetWithdrawal(db, id, w.(approvals := approvals, status := if |approvals| >= 2 then Approved else w.status)),
         Done)
  }

  function CancelWithdrawal(db: DB, user: string, id: nat): (DB, Reply) {
    if id >= |db.withdrawals| || db.withdrawals[id].user != user || !db.withdrawals[id].status.PendingApproval?
      then (db, Refused)
    else
      var w := db.withdrawals[id];
      (Post(SetWithdrawal(db, id, w.(status := Cancelled)), WithdrawalCancel(id),
            UnholdPostings(w.account, w.asset, w.amount)), Done)
  }

  // Dispatch.

  /** The payload a worker validated. */
  datatype Item = Item(
    id: nat, user: string, asset: string, vault: string, custodyAsset: string, destination: string, amount: nat)

  function ItemOf(k: World, db: DB, id: nat): Item
    requires id < |db.withdrawals|
  {
    var w := db.withdrawals[id];
    Item(id, w.user, w.asset, k.vault(w.user), k.custodyAsset(w.asset), w.destination, w.amount)
  }

  /** What was read from the vault, the fee asset and fee limit coming from the approved route. */
  datatype Evidence = Evidence(feeAsset: string, assetAvailable: nat, feeAvailable: nat, feeRequired: nat, maxFee: nat)

  function ReservedFor(r: Reservation, vault: string, asset: string): nat {
    if r.vault != vault then 0
    else (if r.asset == asset then r.amount else 0) + (if r.feeAsset == asset then r.fee else 0)
  }

  function OpenWeights(withdrawals: seq<Withdrawal>, vault: string, asset: string): (weights: seq<int>)
    ensures |weights| == |withdrawals|
  {
    seq(|withdrawals|, i requires 0 <= i < |withdrawals| =>
          var w := withdrawals[i];
          if w.reservation.Some? && w.terminal.None? then ReservedFor(w.reservation.value, vault, asset) else 0)
  }

  /** What open reservations claim of a vault's asset, as amount or as fee. */
  function OpenCapacity(withdrawals: seq<Withdrawal>, vault: string, asset: string): int {
    Sum(OpenWeights(withdrawals, vault, asset))
  }

  predicate HasCapacity(db: DB, item: Item, e: Evidence) {
    && e.feeRequired <= e.maxFee
    && if item.custodyAsset == e.feeAsset then
         e.assetAvailable == e.feeAvailable
         && OpenCapacity(db.withdrawals, item.vault, item.custodyAsset) + item.amount + e.feeRequired
           <= e.assetAvailable
       else
         && OpenCapacity(db.withdrawals, item.vault, item.custodyAsset) + item.amount <= e.assetAvailable
         && OpenCapacity(db.withdrawals, item.vault, e.feeAsset) + e.feeRequired <= e.feeAvailable
  }

  predicate HoldStands(db: DB, id: nat)
    requires id < |db.withdrawals|
  {
    var w := db.withdrawals[id];
    && (exists i :: 0 <= i < |db.journals|
          && db.journals[i] == Journal(WithdrawalHold(id), HoldPostings(w.account, w.asset, w.amount)))
    && !Compensated(db.journals, id)
    && (forall i | 0 <= i < |db.journals| :: db.journals[i].source != WithdrawalSettlement(id))
    && Balance(db.journals, w.account, w.asset, Held) >= w.amount
  }

  function BeginDispatch(k: World, db: DB, provider: string, item: Item, evidence: Option<Evidence>,
                         checks: Checks): (DB, Reply) {
    if provider == "" || !db.controls.withdrawalsEnabled || item.id >= |db.withdrawals| then (db, Refused)
    else
      var w := db.withdrawals[item.id];
      if !Entitled(k, db, w.user, w.asset, 0) then (db, Refused)
      else if !w.status.Approved? || w.providerTx != "" || !checks.asset || !checks.wallet then (db, NotClaimed)
      else if item != ItemOf(k, db, item.id) then (db, Refused)
      else if w.dispatch.Some? then (db, NotClaimed)
      else if !checks.customer || !checks.account || !HoldStands(db, item.id) then (db, Refused)
      else if Enforced(db) && evidence.None? then (db, Refused)
      else if evidence.Some? && (!checks.route || !checks.timely || !HasCapacity(db, item, evidence.value))
        then (db, Refused)
      else
        var reservation := if evidence.None? then None
          else Some(Reservation(item.vault, item.custodyAsset, item.amount, evidence.value.feeAsset,
                                evidence.value.feeRequired));
        (SetWithdrawal(db, item.id, w.(dispatch := Some(provider), reservation := reservation)), Done)
  }

  // The provider's answers.

  function FindTx(withdrawals: seq<Withdrawal>, tx: string): (i: int)
    ensures -1 <= i < |withdrawals|
    ensures i >= 0 ==> withdrawals[i].providerTx == tx
    ensures i == -1 ==> forall j | 0 <= j < |withdrawals| :: withdrawals[j].providerTx != tx
  {
    if withdrawals == [] then -1
    else
      var last := |withdrawals| - 1;
      if withdrawals[last].providerTx == tx then last else FindTx(withdrawals[..last], tx)
  }

  function MarkSubmitted(db: DB, id: nat, tx: string): (DB, Reply) {
    if tx == "" || id >= |db.withdrawals| then (db, Refused)
    else
      var w := db.withdrawals[id];
      if w.status.Approved? && w.providerTx == "" then
        if FindTx(db.withdrawals, tx) >= 0 then (db, Refused)
        else (SetWithdrawal(db, id, w.(status := Submitted, providerTx := tx)), Done)
      else if w.providerTx == tx then (db, Done)
      else (db, Refused)
  }

  /** What a provider status says: paid, failed for good, on its way, or nothing known. */
  datatype ProviderStatus = Finished | Broken | InFlight | Unknown

  predicate Terminal(s: WithdrawalStatus) {
    s.Completed? || s.Failed? || s.Cancelled?
  }

  function CustodyUpdate(k: World, db: DB, tx: string, status: ProviderStatus): (DB, Reply) {
    if status.Unknown? || tx == "" then (db, Refused)
    else
      var id := FindTx(db.withdrawals, tx);
      if id < 0 || Terminal(db.withdrawals[id].status) then (db, Refused)
      else if status.InFlight? then (db, Done)
      else
        var w := db.withdrawals[id];
        var finished := status.Finished?;
        var terminal := if w.terminal.Some? || w.reservation.None? then w.terminal
          else Some(if finished then Consumed else Released);
        var w' := w.(status := if finished then Completed else Failed, terminal := terminal);
        (Post(SetWithdrawal(db, id, w'),
              if finished then WithdrawalSettlement(id) else WithdrawalRelease(id),
              if finished then Move(w.asset, w.amount, w.account, Held, k.clearing(w.asset), Available)
              else UnholdPostings(w.account, w.asset, w.amount)), Done)
  }

  // Deposits.

  /**
   One webhook about one output of a chain transaction; the address decides user,
   asset and required confirmations.
   */
  datatype Observation = Observation(
    tx: string, index: string, user: string, asset: string, required: nat, amount: nat,
    confirmations: nat, failed: bool, hash: string)

  function FindDeposit(deposits: seq<Deposit>, tx: string, index: string): (i: int)
    ensures -1 <= i < |deposits|
    ensures i >= 0 ==> deposits[i].tx == tx && deposits[i].index == index
    ensures i == -1 ==> forall j | 0 <= j < |deposits| :: deposits[j].tx != tx || deposits[j].index != index
  {
    if deposits == [] then -1
    else
      var last := |deposits| - 1;
      if deposits[last].tx == tx && deposits[last].index == index then last
        else FindDeposit(deposits[..last], tx, index)
  }

  predicate Absorbing(s: DepositStatus) {
    s.Credited? || s.Reorged? || s.Rejected?
  }

  function ObservedStatus(o: Observation): DepositStatus {
    if o.failed then Reorged else if o.confirmations >= o.required then PendingReview else Confirming
  }

  /** The row after the upsert. */
  function Upserted(row: Option<Deposit>, o: Observation): Deposit {
    match row
    case None => Deposit(o.tx, o.index, o.user, o.asset, o.amount, o.confirmations, o.required, ObservedStatus(o),
                         NotStarted, o.hash)
    case Some(d) =>
      d.(confirmations := Max(d.confirmations, o.confirmations),
         hash := if o.hash != "" then o.hash else d.hash,
         status := if Absorbing(d.status) then d.status else ObservedStatus(o))
  }

  function CreditDeposit(k: World, db: DB, id: nat, account: string): DB
    requires id < |db.deposits|
  {
    var d := db.deposits[id];
    Post(db.(deposits := db.deposits[id := d.(status := Credited, risk := RiskApproved)]), DepositCredit(id),
         Move(d.asset, d.amount, k.clearing(d.asset), Available, account, Available))
  }

  /**
   Records an observation; a row that is now confirmed and unflagged is credited at
   once, or nothing happens at all.
   */
  function ObserveDeposit(k: World, db: DB, o: Observation, matched: bool, funding: Option<string>): (DB, Reply) {
    if !matched then (db, Refused)
    else
      var i := FindDeposit(db.deposits, o.tx, o.index);
      var id := if i >= 0 then i else |db.deposits|;
      var row := Upserted(if i >= 0 then Some(db.deposits[i]) else None, o);
      var db' := db.(deposits := if i >= 0 then db.deposits[i := row] else db.deposits + [row]);
      if ObservedStatus(o).PendingReview? && row.status.PendingReview? && row.risk.NotStarted? then
        if funding.None? || k.owner(funding.value) != Some(row.user) || row.amount == 0 then (db, Refused)
        else (CreditDeposit(k, db', id, funding.value), Done)
      else (db', Done)
  }

  /** The manual path for a deposit under review. */
  function ApproveDeposit(k: World, db: DB, id: nat, checks: Checks, funding: Option<string>): (DB, Reply) {
    if !checks.role || id >= |db.deposits| then (db, Refused)
    else
      var d := db.deposits[id];
      if !d.status.PendingReview? || !(d.risk.NotStarted? || d.risk.RiskPending?) || !checks.customer
         || funding.None? || k.owner(funding.value) != Some(d.user) || d.amount == 0
      then (db, Refused)
      else (CreditDeposit(k, db, id, funding.value), Done)
  }

  /** The risk worker holds a deposit back from automatic crediting, before it is decided. */
  function FlagDeposit(db: DB, id: nat, risk: RiskStatus): DB {
    if id >= |db.deposits| || Absorbing(db.deposits[id].status) || !(risk.RiskPending? || risk.RiskRejected?) then db
    else db.(deposits := db.deposits[id := db.deposits[id].(risk := risk)])
  }

  /** A reviewer turns a deposit down. */
  function RejectDeposit(db: DB, id: nat): DB {
    if id >= |db.deposits| || Absorbing(db.deposits[id].status) then db
    else db.(deposits := db.deposits[id := db.deposits[id].(status := Rejected, risk := RiskRejected)])
  }

  // Peer-to-peer escrow.

  predicate Escrowed(s: TradeStatus) {
    s.Open? || s.Accepted? || s.Paid? || s.Disputed?
  }

  function CreateTrade(k: World, db: DB, t: P2PTrade, checks: Checks): (DB, Reply) {
    if !checks.asset || !checks.account || k.owner(t.sellerAccount) != Some(t.seller) || t.amount == 0
       || Balance(db.journals, t.sellerAccount, t.asset, Available) < t.amount
    then (db, Refused)
    else
      var id := |db.trades|;
      (Post(db.(trades := db.trades + [t.(status := Open, buyer := "", buyerAccount := "")]), Escrow(id),
            HoldPostings(t.sellerAccount, t.asset, t.amount)), Created(id))
  }

  function SetTrade(db: DB, id: nat, t: P2PTrade): DB
    requires id < |db.trades|
  {
    db.(trades := db.trades[id := t])
  }

  function AcceptTrade(k: World, db: DB, id: nat, buyer: string, account: string, now: int, deadline: int,
                       checks: Checks): (DB, Reply) {
    if id >= |db.trades| || !db.trades[id].status.Open? || now >= db.trades[id].offerExpires
       || buyer == db.trades[id].seller || !checks.account || k.owner(account) != Some(buyer) || account == ""
    then (db, Refused)
    else (SetTrade(db, id,
        db.trades[id].(buyer := buyer, buyerAccount := account, status := Accepted, deadline := deadline)), Done)
  }

  function PayTrade(db: DB, id: nat, buyer: string, account: string, now: int): (DB, Reply) {
    if id >= |db.trades| || !db.trades[id].status.Accepted? || db.trades[id].buyer != buyer
       || db.trades[id].buyerAccount != account || now > db.trades[id].deadline
    then (db, Refused)
    else (SetTrade(db, id, db.trades[id].(status := Paid)), Done)
  }

  function DisputeTrade(db: DB, id: nat, user: string, account: string): (DB, Reply) {
    if id >= |db.trades| || !(db.trades[id].status.Accepted? || db.trades[id].status.Paid?)
       || !((db.trades[id].seller == user && db.trades[id].sellerAccount == account)
            || (db.trades[id].buyer == user && db.trades[id].buyerAccount == account))
    then (db, Refused)
    else (SetTrade(db, id, db.trades[id].(status := Disputed)), Done)
  }

  /** The escrowed amount goes to the buyer. */
  function ReleaseEscrow(db: DB, id: nat): (DB, Reply) {
    if id >= |db.trades| || db.trades[id].buyerAccount == ""
       || Balance(db.journals, db.trades[id].sellerAccount, db.trades[id].asset, Held) < db.trades[id].amount
    then (db, Refused)
    else
      var t := db.trades[id];
      (Post(SetTrade(db, id, t.(status := TradeReleased)), EscrowRelease(id),
            Move(t.asset, t.amount, t.sellerAccount, Held, t.buyerAccount, Available)), Done)
  }

  /** The escrowed amount goes back to the seller. */
  function RefundEscrow(db: DB, id: nat, status: TradeStatus): (DB, Reply) {
    if id >= |db.trades|
      || Balance(db.journals, db.trades[id].sellerAccount, db.trades[id].asset, Held) < db.trades[id].amount
    then (db, Refused)
    else
      var t := db.trades[id];
      (Post(SetTrade(db, id, t.(status := status)), EscrowRefund(id),
            UnholdPostings(t.sellerAccount, t.asset, t.amount)), Done)
  }

  function ReleaseTrade(db: DB, id: nat, user: string, account: string): (DB, Reply) {
    if id >= |db.trades| || !db.trades[id].status.Paid? || db.trades[id].seller != user
      || db.trades[id].sellerAccount != account
    then (db, Refused) else ReleaseEscrow(db, id)
  }

  function CancelTrade(db: DB, id: nat, user: string, account: string): (DB, Reply) {
    if id >= |db.trades| || !db.trades[id].status.Open? || db.trades[id].seller != user
      || db.trades[id].sellerAccount != account
    then (db, Refused) else RefundEscrow(db, id, TradeCancelled)
  }

  predicate Overdue(t: P2PTrade, now: int) {
    (t.status.Open? && t.offerExpires <= now) || (t.status.Accepted? && t.deadline <= now)
  }

  function ExpireTrade(db: DB, id: nat, now: int): (DB, Reply) {
    if id >= |db.trades| || !Overdue(db.trades[id], now) then (db, Refused) else RefundEscrow(db, id, Expired)
  }

  /** An approved resolution of a dispute. */
  function ResolveTrade(db: DB, id: nat, release: bool, checks: Checks): (DB, Reply) {
    if !checks.role || id >= |db.trades| || !db.trades[id].status.Disputed? then (db, Refused)
    else if release then ReleaseEscrow(db, id) else RefundEscrow(db, id, Refunded)
  }

  // Transfers, conversions, test money and everybody else.

  function Transfer(k: World, db: DB, user: string, from: string, to: string, asset: string, amount: nat,
                    checks: Checks): (DB, Reply) {
    if amount == 0 || !checks.asset || !checks.account || k.owner(from) != Some(user)
       || Balance(db.journals, from, asset, Available) < amount
    then (db, Refused)
    else (Post(db, InternalTransfer, Move(asset, amount, from, Available, to, Available)), Done)
  }

  /** Customer pays the treasury; the treasury pays customer and fee account in the other asset. */
  function ConversionPostings(k: World, q: Quote): seq<Posting> {
    [Posting(q.account, q.from, Available, false, q.input),
     Posting(k.treasury(q.from), q.from, Available, true, q.input),
     Posting(k.treasury(q.to), q.to, Available, false, q.output + q.fee),
       Posting(q.account, q.to, Available, true, q.output),
     Posting(k.conversionFees(q.to), q.to, Available, true, q.fee)]
  }

  function ConfirmConversion(k: World, db: DB, user: string, id: nat, checks: Checks): (DB, Reply) {
    if id >= |db.quotes| || db.quotes[id].user != user || db.quotes[id].confirmed || !checks.timely || !checks.asset
      || !checks.account
       || k.owner(db.quotes[id].account) != Some(user)
       || Balance(db.journals, db.quotes[id].account, db.quotes[id].from, Available) < db.quotes[id].input
       || Balance(db.journals, k.treasury(db.quotes[id].to), db.quotes[id].to, Available)
         < db.quotes[id].output + db.quotes[id].fee
       || db.quotes[id].input == 0 || db.quotes[id].output == 0 || db.quotes[id].fee == 0
    then (db, Refused)
    else (Post(db.(quotes := db.quotes[id := db.quotes[id].(confirmed := true)]), Conversion,
               ConversionPostings(k, db.quotes[id])), Done)
  }

  function QuoteConversion(db: DB, q: Quote): (DB, Reply) {
    (db.(quotes := db.quotes + [q.(confirmed := false)]), Created(|db.quotes|))
  }

  /** Test money is issued only while both flags are set. */
  function Grant(k: World, db: DB, account: string, asset: string, amount: nat): (DB, Reply) {
    if !(db.controls.limitsReady && db.controls.issuing) || amount == 0 || k.owner(account).None? then (db, Refused)
    else (Post(db.(grants := db.grants + 1), Issuance,
               Move(asset, amount, k.issuance(asset), Available, account, Available)), Done)
  }

  // Frames.

  /** Rows a transaction may change; -1 for none. */
  datatype Rows = Rows(withdrawal: int, deposit: int, trade: int, quote: int)

  const NO_ROWS := Rows(-1, -1, -1, -1)

  /** The other rows, the posted journals and the controls are as before. */
  predicate Leaves(db: DB, db': DB, rows: Rows) {
    && db.journals <= db'.journals && db'.controls == db.controls && db'.grants == db.grants
    && |db.withdrawals| <= |db'.withdrawals| && |db.deposits| <= |db'.deposits|
    && |db.trades| <= |db'.trades| && |db.quotes| <= |db'.quotes|
    && (forall i | 0 <= i < |db.withdrawals| && i != rows.withdrawal :: db'.withdrawals[i] == db.withdrawals[i])
    && (forall i | 0 <= i < |db.deposits| && i != rows.deposit :: db'.deposits[i] == db.deposits[i])
    && (forall i | 0 <= i < |db.trades| && i != rows.trade :: db'.trades[i] == db.trades[i])
    && (forall i | 0 <= i < |db.quotes| && i != rows.quote :: db'.quotes[i] == db.quotes[i])
  }
}
