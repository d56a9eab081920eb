/** Every reachable state of the money tables. */
module MoneyRuns {
  import opened Options
  import opened Sums
  import opened Ledger
  import opened Money
  import opened MoneyLaws
  import opened MoneyRows

  datatype Action =
    | DoRequest(input: WithdrawalInput, checks: Checks)
    | DoApprove(approver: string, id: nat, checks: Checks)
    | DoCancel(user: string, id: nat)
    | DoBegin(provider: string, item: Item, evidence: Option<Evidence>, checks: Checks)
    | DoMark(id: nat, tx: string)
    | DoUpdate(tx: string, status: ProviderStatus)
    | DoObserve(observation: Observation, matched: bool, funding: Option<string>)
    | DoCredit(id: nat, checks: Checks, funding: Option<string>)
    | DoFlag(id: nat, risk: RiskStatus)
    | DoReject(id: nat)
    | DoCreate(trade: P2PTrade, checks: Checks)
    | DoAccept(id: nat, buyer: string, account: string, now: int, deadline: int, checks: Checks)
    | DoPay(id: nat, buyer: string, account: string, now: int)
    | DoDispute(id: nat, user: string, account: string)
    | DoRelease(id: nat, user: string, account: string)
    | DoCancelTrade(id: nat, user: string, account: string)
    | DoExpire(id: nat, now: int)
    | DoResolve(id: nat, release: bool, checks: Checks)
    | DoTransfer(user: string, from: string, to: string, asset: string, amount: nat, checks: Checks)
    | DoQuote(quote: Quote)
    | DoConvert(user: string, id: nat, checks: Checks)
    | DoGrant(account: string, asset: string, amount: nat)
    | DoControls(controls: Controls)
    | DoTrade(postings: seq<Posting>)

  /** What the trading engine's own journals keep: they balance, overdraw nobody and give back only what they held. */
  ghost predicate TradingAllowed(k: World, db: DB, postings: seq<Posting>) {
    var after := db.journals + [Journal(Trading, postings)];
    && Balanced(postings)
    && (forall account: string, asset: string ::
          && TradingHeld(after, account, asset) >= 0
          && (k.owner(account).Some? ==> Balance(after, account, asset, Available) >= 0))
  }

  /** A transaction commits or leaves the tables alone. */
  ghost function Step(k: World, db: DB, a: Action): DB {
    match a
    case DoRequest(input, checks) => RequestWithdrawal(k, db, input, checks).0
    case DoApprove(approver, id, checks) => ApproveWithdrawal(db, approver, id, checks).0
    case DoCancel(user, id) => CancelWithdrawal(db, user, id).0
    case DoBegin(provider, item, evidence, checks) => BeginDispatch(k, db, provider, item, evidence, checks).0
    case DoMark(id, tx) => MarkSubmitted(db, id, tx).0
    case DoUpdate(tx, status) => CustodyUpdate(k, db, tx, status).0
    case DoObserve(o, matched, funding) => ObserveDeposit(k, db, o, matched, funding).0
    case DoCredit(id, checks, funding) => ApproveDeposit(k, db, id, checks, funding).0
    case DoFlag(id, risk) => FlagDeposit(db, id, risk)
    case DoReject(id) => RejectDeposit(db, id)
    case DoCreate(t, checks) => CreateTrade(k, db, t, checks).0
    case DoAccept(id, buyer, account, now, deadline, checks) =>
      AcceptTrade(k, db, id, buyer, account, now, deadline, checks).0
    case DoPay(id, buyer, account, now) => PayTrade(db, id, buyer, account, now).0
    case DoDispute(id, user, account) => DisputeTrade(db, id, user, account).0
    case DoRelease(id, user, account) => ReleaseTrade(db, id, user, account).0
    case DoCancelTrade(id, user, account) => CancelTrade(db, id, user, account).0
    case DoExpire(id, now) => ExpireTrade(db, id, now).0
    case DoResolve(id, release, checks) => ResolveTrade(db, id, release, checks).0
    case DoTransfer(user, from, to, asset, amount, checks) => Transfer(k, db, user, from, to, asset, amount, checks).0
    case DoQuote(q) => QuoteConversion(db, q).0
    case DoConvert(user, id, checks) => ConfirmConversion(k, db, user, id, checks).0
    case DoGrant(account, asset, amount) => Grant(k, db, account, asset, amount).0
    case DoControls(controls) => db.(controls := controls)
    case DoTrade(postings) => if TradingAllowed(k, db, postings) then Post(db, Trading, postings) else db
  }

  ghost function Run(k: World, controls: Controls, actions: seq<Action>): DB {
    if actions == [] then NewDB(controls)
    else Step(k, Run(k, controls, actions[..|actions| - 1]), actions[|actions| - 1])
  }

  lemma RunStep(k: World, controls: Controls, actions: seq<Action>, n: nat)
    requires n < |actions|
    ensures Run(k, controls, actions[..n + 1]) == Step(k, Run(k, controls, actions[..n]), actions[n])
  {
    hide Step;
    assert actions[..n + 1][..n] == actions[..n];
  }

  // Withdrawals.

  lemma RequestOk(k: World, db: DB, input: WithdrawalInput, checks: Checks)
    requires Ok(k, db)
    ensures Ok(k, RequestWithdrawal(k, db, input, checks).0)
  {
    hide LedgerOk, HoldsOk, WithdrawalsOk, TradesOk, DepositsOk, Entitled, Balance;
    var (db', reply) := RequestWithdrawal(k, db, input, checks);
    if reply.Created? {
      var w, j := NewWithdrawal(db, input),
        Journal(WithdrawalHold(|db.withdrawals|), HoldPostings(input.account, input.asset, input.amount));
      forall account, a ensures Claims(db', account, a)
        == Claims(db, account, a) + Shift(w.asset, w.amount, w.account, Available, w.account, Held, account, a, Held) {
        HoldsAdd(db.withdrawals, w, account, a);
      }
      MoveKeeps(k, db, db', j.source, w.asset, w.amount, w.account, Available, w.account, Held);
      AddWithdrawalOk(k, db, db', w);
      OtherKeepsTrades(k, db, db', j);
      OtherKeepsDeposits(k, db, db', j);
    }
  }

  /** The ledger, the trades and the deposits of two states with the same journals and claims. */
  lemma SameMoney(k: World, db: DB, db': DB)
    requires LedgerOk(k, db) && HoldsOk(db) && TradesOk(k, db) && DepositsOk(k, db)
    requires db'.journals == db.journals && db'.trades == db.trades && db'.deposits == db.deposits
    requires forall account, a :: Claims(db', account, a) == Claims(db, account, a)
    ensures LedgerOk(k, db') && HoldsOk(db') && TradesOk(k, db') && DepositsOk(k, db')
  {
  }

  lemma ChangeOk(k: World, db: DB, id: nat, w: Withdrawal)
    requires Ok(k, db) && id < |db.withdrawals| && WithdrawalOk(k, w) && SameWithdrawal(db.withdrawals[id], w)
    requires !Terminal(db.withdrawals[id].status) && !Terminal(w.status)
    requires w.providerTx == db.withdrawals[id].providerTx || forall i | 0 <= i < |db.withdrawals| ::
      db.withdrawals[i].providerTx != w.providerTx
    ensures Ok(k, SetWithdrawal(db, id, w))
  {
    hide LedgerOk, HoldsOk, WithdrawalsOk, TradesOk, DepositsOk, WithdrawalOk;
    var db' := SetWithdrawal(db, id, w);
    forall account, a ensures Claims(db', account, a) == Claims(db, account, a) {
      HoldsSet(db.withdrawals, id, w, account, a);
    }
    SameMoney(k, db, db');
    SetWithdrawalOk(k, db, db', id, w);
  }

  lemma WithdrawalAt(k: World, db: DB, id: nat)
    requires WithdrawalsOk(k, db) && id < |db.withdrawals|
    ensures WithdrawalOk(k, db.withdrawals[id])
  {
  }

  lemma ApproveOk(k: World, db: DB, approver: string, id: nat, checks: Checks)
    requires Ok(k, db)
    ensures Ok(k, ApproveWithdrawal(db, approver, id, checks).0)
  {
    hide LedgerOk, HoldsOk, WithdrawalsOk, TradesOk, DepositsOk;
    var (db', reply) := ApproveWithdrawal(db, approver, id, checks);
    if reply.Done? {
      WithdrawalAt(k, db, id);
      ChangeOk(k, db, id, db'.withdrawals[id]);
    }
  }

  lemma BeginOk(k: World, db: DB, provider: string, item: Item, evidence: Option<Evidence>, checks: Checks)
    requires Ok(k, db)
    ensures Ok(k, BeginDispatch(k, db, provider, item, evidence, checks).0)
  {
    hide LedgerOk, HoldsOk, WithdrawalsOk, TradesOk, DepositsOk, Entitled, HasCapacity, HoldStands;
    var (db', reply) := BeginDispatch(k, db, provider, item, evidence, checks);
    if reply.Done? {
      WithdrawalAt(k, db, item.id);
      ChangeOk(k, db, item.id, db'.withdrawals[item.id]);
    }
  }

  lemma MarkOk(k: World, db: DB, id: nat, tx: string)
    requires Ok(k, db)
    ensures Ok(k, MarkSubmitted(db, id, tx).0)
  {
    hide LedgerOk, HoldsOk, WithdrawalsOk, TradesOk, DepositsOk, FindTx;
    if id < |db.withdrawals| && MarkSubmitted(db, id, tx).0 != db {
      WithdrawalAt(k, db, id);
      ChangeOk(k, db, id, MarkSubmitted(db, id, tx).0.withdrawals[id]);
    }
  }

  /** A withdrawal ends: its hold leaves the account's held balance. */
  lemma EndOk(k: World, db: DB, db': DB, id: nat, w: Withdrawal, to: string)
    requires Ok(k, db) && id < |db.withdrawals| && !Terminal(db.withdrawals[id].status) && Terminal(w.status)
    requires WithdrawalOk(k, w) && SameWithdrawal(db.withdrawals[id], w)
      && w.providerTx == db.withdrawals[id].providerTx
    requires db' == Post(SetWithdrawal(db, id, w), EndSource(id, w.status),
                         Move(w.asset, w.amount, w.account, Held, to, Available))
    ensures Ok(k, db')
  {
    hide LedgerOk, HoldsOk, WithdrawalsOk, TradesOk, DepositsOk;
    var j := Journal(EndSource(id, w.status), Move(w.asset, w.amount, w.account, Held, to, Available));
    forall account, a ensures Claims(db', account, a)
      == Claims(db, account, a) + Shift(w.asset, w.amount, w.account, Held, to, Available, account, a, Held) {
      HoldsSet(db.withdrawals, id, w, account, a);
    }
    MoveKeeps(k, db, db', j.source, w.asset, w.amount, w.account, Held, to, Available);
    EndWithdrawalOk(k, db, db', id, w, j);
    OtherKeepsTrades(k, db, db', j);
    OtherKeepsDeposits(k, db, db', j);
  }

  lemma CancelOk(k: World, db: DB, user: string, id: nat)
    requires Ok(k, db)
    ensures Ok(k, CancelWithdrawal(db, user, id).0)
  {
    hide LedgerOk, HoldsOk, WithdrawalsOk, TradesOk, DepositsOk;
    var (db', reply) := CancelWithdrawal(db, user, id);
    if reply.Done? {
      WithdrawalAt(k, db, id);
      EndOk(k, db, db', id, db'.withdrawals[id], db.withdrawals[id].account);
    }
  }

  lemma UpdateOk(k: World, db: DB, tx: string, status: ProviderStatus)
    requires Ok(k, db)
    ensures Ok(k, CustodyUpdate(k, db, tx, status).0)
  {
    hide LedgerOk, HoldsOk, WithdrawalsOk, TradesOk, DepositsOk, FindTx;
    var (db', reply) := CustodyUpdate(k, db, tx, status);
    if reply.Done? && !status.InFlight? {
      var id := FindTx(db.withdrawals, tx);
      var w := db.withdrawals[id];
      WithdrawalAt(k, db, id);
      EndOk(k, db, db', id, db'.withdrawals[id], if status.Finished? then k.clearing(w.asset) else w.account);
    }
  }

  // Trades.

  lemma TradeRow(k: World, db: DB, id: nat)
    requires TradesOk(k, db) && id < |db.trades|
    ensures TradeOk(k, db.trades[id])
  {
  }

  lemma CreateOk(k: World, db: DB, t: P2PTrade, checks: Checks)
    requires Ok(k, db)
    ensures Ok(k, CreateTrade(k, db, t, checks).0)
  {
    hide LedgerOk, HoldsOk, WithdrawalsOk, TradesOk, DepositsOk, Balance;
    var (db', reply) := CreateTrade(k, db, t, checks);
    if reply.Created? {
      var row := t.(status := Open, buyer := "", buyerAccount := "");
      var j := Journal(Escrow(|db.trades|), HoldPostings(t.sellerAccount, t.asset, t.amount));
      forall account, a ensures Claims(db', account, a)
        == Claims(db, account, a)
          + Shift(t.asset, t.amount, t.sellerAccount, Available, t.sellerAccount, Held, account, a, Held) {
        EscrowAdd(db.trades, row, account, a);
      }
      MoveKeeps(k, db, db', j.source, t.asset, t.amount, t.sellerAccount, Available, t.sellerAccount, Held);
      AddTradeOk(k, db, db', row, j);
      OtherKeepsWithdrawals(k, db, db', j);
      OtherKeepsDeposits(k, db, db', j);
    }
  }

  /** A trade moves on while its escrow stands. */
  lemma MoveOnOk(k: World, db: DB, id: nat, t: P2PTrade)
    requires Ok(k, db) && id < |db.trades| && Escrowed(db.trades[id].status) && Escrowed(t.status) && TradeOk(k, t)
    requires t.sellerAccount == db.trades[id].sellerAccount && t.asset == db.trades[id].asset
      && t.amount == db.trades[id].amount
    ensures Ok(k, SetTrade(db, id, t))
  {
    hide LedgerOk, HoldsOk, WithdrawalsOk, TradesOk, DepositsOk, TradeOk;
    var db' := SetTrade(db, id, t);
    forall account, a ensures Claims(db', account, a) == Claims(db, account, a) {
      EscrowSet(db.trades, id, t, account, a);
    }
    SameClaims(k, db, db');
    SetTradeOk(k, db, db', id, t);
  }

  lemma SameClaims(k: World, db: DB, db': DB)
    requires LedgerOk(k, db) && HoldsOk(db) && WithdrawalsOk(k, db) && DepositsOk(k, db)
    requires db'.journals == db.journals && db'.withdrawals == db.withdrawals && db'.deposits == db.deposits
    requires forall account, a :: Claims(db', account, a) == Claims(db, account, a)
    ensures LedgerOk(k, db') && HoldsOk(db') && WithdrawalsOk(k, db') && DepositsOk(k, db')
  {
  }

  /** An escrow ends: the amount leaves the seller's held balance. */
  lemma EndEscrowOk(k: World, db: DB, db': DB, id: nat, t: P2PTrade, to: string)
    requires Ok(k, db) && id < |db.trades| && Escrowed(db.trades[id].status) && !Escrowed(t.status)
    requires t == db.trades[id].(status := t.status)
    requires db' == Post(SetTrade(db, id, t), if t.status.TradeReleased? then EscrowRelease(id) else EscrowRefund(id),
                         Move(t.asset, t.amount, t.sellerAccount, Held, to, Available))
    ensures Ok(k, db')
  {
    hide LedgerOk, HoldsOk, WithdrawalsOk, TradesOk, DepositsOk;
    TradeRow(k, db, id);
    var j := Journal(if t.status.TradeReleased? then EscrowRelease(id) else EscrowRefund(id),
                     Move(t.asset, t.amount, t.sellerAccount, Held, to, Available));
    forall account, a ensures Claims(db', account, a)
      == Claims(db, account, a) + Shift(t.asset, t.amount, t.sellerAccount, Held, to, Available, account, a, Held) {
      EscrowSet(db.trades, id, t, account, a);
    }
    MoveKeeps(k, db, db', j.source, t.asset, t.amount, t.sellerAccount, Held, to, Available);
    EndTradeOk(k, db, db', id, t, j);
    OtherKeepsWithdrawals(k, db, db', j);
    OtherKeepsDeposits(k, db, db', j);
  }

  lemma ReleaseEscrowOk(k: World, db: DB, id: nat)
    requires Ok(k, db) && id < |db.trades| && Escrowed(db.trades[id].status)
    ensures Ok(k, ReleaseEscrow(db, id).0)
  {
    hide Ok, Balance;
    var (db', reply) := ReleaseEscrow(db, id);
    if reply.Done? {
      EndEscrowOk(k, db, db', id, db'.trades[id], db.trades[id].buyerAccount);
    }
  }

  lemma RefundEscrowOk(k: World, db: DB, id: nat, status: TradeStatus)
    requires Ok(k, db) && id < |db.trades| && Escrowed(db.trades[id].status) && !Escrowed(status)
      && !status.TradeReleased?
    ensures Ok(k, RefundEscrow(db, id, status).0)
  {
    hide Ok, Balance;
    var (db', reply) := RefundEscrow(db, id, status);
    if reply.Done? {
      EndEscrowOk(k, db, db', id, db'.trades[id], db.trades[id].sellerAccount);
    }
  }

  lemma TradeStepOk(k: World, db: DB, a: Action)
    requires Ok(k, db)
    requires a.DoAccept? || a.DoPay? || a.DoDispute? || a.DoRelease? || a.DoCancelTrade? || a.DoExpire? || a.DoResolve?
    ensures Ok(k, Step(k, db, a))
  {
    hide LedgerOk, HoldsOk, WithdrawalsOk, TradesOk, DepositsOk, ReleaseEscrow, RefundEscrow;
    if a.id < |db.trades| {
      TradeRow(k, db, a.id);
      if a.DoAccept? || a.DoPay? || a.DoDispute? {
        if Step(k, db, a) != db {
          MoveOnOk(k, db, a.id, Step(k, db, a).trades[a.id]);
        }
      } else if Escrowed(db.trades[a.id].status) {
        ReleaseEscrowOk(k, db, a.id);
        RefundEscrowOk(k, db, a.id, TradeCancelled);
        RefundEscrowOk(k, db, a.id, Expired);
        RefundEscrowOk(k, db, a.id, Refunded);
      }
    }
  }

  // Deposits.

  lemma SetRowOk(k: World, db: DB, db': DB, id: nat, d: Deposit)
    requires Ok(k, db) && id <= |db.deposits|
    requires db' == db.(deposits := if id < |db.deposits| then db.deposits[id := d] else db.deposits + [d])
    requires id < |db.deposits| ==>
      SameDeposit(db.deposits[id], d) && (d.status.Credited? <==> db.deposits[id].status.Credited?)
    requires id == |db.deposits| ==> !d.status.Credited? && FindDeposit(db.deposits, d.tx, d.index) == -1
    ensures Ok(k, db')
  {
    hide LedgerOk, HoldsOk, WithdrawalsOk, TradesOk, DepositsOk;
    SetDepositOk(k, db, db', id, d);
    SameTables(k, db, db');
  }

  lemma SameTables(k: World, db: DB, db': DB)
    requires LedgerOk(k, db) && HoldsOk(db) && WithdrawalsOk(k, db) && TradesOk(k, db)
    requires db'.journals == db.journals && db'.withdrawals == db.withdrawals && db'.trades == db.trades
    ensures LedgerOk(k, db') && HoldsOk(db') && WithdrawalsOk(k, db') && TradesOk(k, db')
  {
  }

  /** A move between available balances that concerns no other table's journals. */
  lemma PaymentOk(k: World, db: DB, db': DB, source: Source, asset: string, amount: nat, from: string, to: string)
    requires Ok(k, db) && amount > 0
    requires source.InternalTransfer? || source.Issuance? || source.DepositCredit?
    requires db'.journals == db.journals + [Journal(source, Move(asset, amount, from, Available, to, Available))]
    requires db'.withdrawals == db.withdrawals && db'.trades == db.trades
    requires k.owner(from).Some? ==> Balance(db.journals, from, asset, Available) >= amount
    requires if source.DepositCredit? then DepositsOk(k, db') else db'.deposits == db.deposits
    ensures Ok(k, db')
  {
    hide LedgerOk, HoldsOk, WithdrawalsOk, TradesOk, DepositsOk, Balance;
    var j := Journal(source, Move(asset, amount, from, Available, to, Available));
    forall account, a ensures Claims(db', account, a)
      == Claims(db, account, a) + Shift(asset, amount, from, Available, to, Available, account, a, Held) {
    }
    MoveKeeps(k, db, db', source, asset, amount, from, Available, to, Available);
    OtherKeepsWithdrawals(k, db, db', j);
    OtherKeepsTrades(k, db, db', j);
    if !source.DepositCredit? {
      OtherKeepsDeposits(k, db, db', j);
    }
  }

  lemma CreditRowOk(k: World, db: DB, id: nat, account: string)
    requires WorldOk(k) && Ok(k, db) && id < |db.deposits| && !db.deposits[id].status.Credited?
    requires k.owner(account) == Some(db.deposits[id].user) && db.deposits[id].amount > 0
    ensures Ok(k, CreditDeposit(k, db, id, account))
  {
    hide LedgerOk, HoldsOk, WithdrawalsOk, TradesOk, DepositsOk;
    var d, db' := db.deposits[id], CreditDeposit(k, db, id, account);
    var d' := d.(status := Credited, risk := RiskApproved);
    var j := Journal(DepositCredit(id), Move(d.asset, d.amount, k.clearing(d.asset), Available, account, Available));
    CreditJournal(k, id, d', account);
    CreditDepositOk(k, db, db', id, d', j);
    PaymentOk(k, db, db', j.source, d.asset, d.amount, k.clearing(d.asset), account);
  }

  lemma ObserveOk(k: World, db: DB, o: Observation, matched: bool, funding: Option<string>)
    requires WorldOk(k) && Ok(k, db)
    ensures Ok(k, ObserveDeposit(k, db, o, matched, funding).0)
  {
    hide Ok, FindDeposit, CreditDeposit;
    var (after, reply) := ObserveDeposit(k, db, o, matched, funding);
    if reply.Done? {
      var i := FindDeposit(db.deposits, o.tx, o.index);
      var id := if i >= 0 then i else |db.deposits|;
      var row := Upserted(if i >= 0 then Some(db.deposits[i]) else None, o);
      var db' := db.(deposits := if i >= 0 then db.deposits[i := row] else db.deposits + [row]);
      SetRowOk(k, db, db', id, row);
      if after != db' {
        CreditRowOk(k, db', id, funding.value);
      }
    }
  }

  lemma CreditOk(k: World, db: DB, id: nat, checks: Checks, funding: Option<string>)
    requires WorldOk(k) && Ok(k, db)
    ensures Ok(k, ApproveDeposit(k, db, id, checks, funding).0)
  {
    hide Ok, CreditDeposit;
    if ApproveDeposit(k, db, id, checks, funding).1.Done? {
      CreditRowOk(k, db, id, funding.value);
    }
  }

  lemma FlagOk(k: World, db: DB, id: nat, risk: RiskStatus)
    requires Ok(k, db)
    ensures Ok(k, FlagDeposit(db, id, risk))
  {
    hide Ok;
    if FlagDeposit(db, id, risk) != db {
      SetRowOk(k, db, FlagDeposit(db, id, risk), id, db.deposits[id].(risk := risk));
    }
  }

  lemma RejectOk(k: World, db: DB, id: nat)
    requires Ok(k, db)
    ensures Ok(k, RejectDeposit(db, id))
  {
    hide Ok;
    if RejectDeposit(db, id) != db {
      SetRowOk(k, db, RejectDeposit(db, id), id, db.deposits[id].(status := Rejected, risk := RiskRejected));
    }
  }

  // Transfers, conversions, grants and trading.

  lemma TransferOk(k: World, db: DB, user: string, from: string, to: string, asset: string, amount: nat, checks: Checks)
    requires Ok(k, db)
    ensures Ok(k, Transfer(k, db, user, from, to, asset, amount, checks).0)
  {
    hide Ok, Balance;
    var (db', reply) := Transfer(k, db, user, from, to, asset, amount, checks);
    if reply.Done? {
      PaymentOk(k, db, db', InternalTransfer, asset, amount, from, to);
    }
  }

  lemma GrantOk(k: World, db: DB, account: string, asset: string, amount: nat)
    requires WorldOk(k) && Ok(k, db)
    ensures Ok(k, Grant(k, db, account, asset, amount).0)
  {
    hide Ok, Balance;
    var (db', reply) := Grant(k, db, account, asset, amount);
    if reply.Done? {
      PaymentOk(k, db, db', Issuance, asset, amount, k.issuance(asset), account);
    }
  }

  /** What a conversion does to an available balance. */
  function ConversionShift(k: World, q: Quote, account: string, a: string): int {
    (if account == q.account && a == q.from then 0 - q.input else 0)
    + (if account == k.treasury(q.from) && a == q.from then q.input else 0)
    + (if account == k.treasury(q.to) && a == q.to then 0 - (q.output + q.fee) else 0)
    + (if account == q.account && a == q.to then q.output else 0)
    + (if account == k.conversionFees(q.to) && a == q.to then q.fee else 0)
  }

  lemma ConversionEffect(k: World, q: Quote, account: string, a: string, bucket: Bucket)
    ensures Effect(ConversionPostings(k, q), account, a, bucket)
         == if bucket.Held? then 0 else ConversionShift(k, q, account, a)
  {
    var p := ConversionPostings(k, q);
    assert p[1..][1..] == p[2..] && p[2..][1..] == p[3..] && p[3..][1..] == p[4..] && p[4..][1..] == [];
    assert Effect(p[4..], account, a, bucket) == Weight(p[4], account, a, bucket);
    assert Effect(p[3..], account, a, bucket) == Weight(p[3], account, a, bucket) + Effect(p[4..], account, a, bucket);
    assert Effect(p[2..], account, a, bucket) == Weight(p[2], account, a, bucket) + Effect(p[3..], account, a, bucket);
    assert Effect(p[1..], account, a, bucket) == Weight(p[1], account, a, bucket) + Effect(p[2..], account, a, bucket);
  }

  lemma ConversionBalanced(k: World, q: Quote)
    requires q.input > 0 && q.output > 0 && q.fee > 0
    ensures Balanced(ConversionPostings(k, q))
  {
    var p := ConversionPostings(k, q);
    forall a: string ensures AssetEffect(p, a) == 0 {
      assert p[1..][1..] == p[2..] && p[2..][1..] == p[3..] && p[3..][1..] == p[4..] && p[4..][1..] == [];
      assert AssetEffect(p[4..], a) == if q.to == a then q.fee else 0;
      assert AssetEffect(p[3..], a) == if q.to == a then q.output + q.fee else 0;
      assert AssetEffect(p[2..], a) == 0;
    }
  }

  lemma ConvertOk(k: World, db: DB, user: string, id: nat, checks: Checks)
    requires WorldOk(k) && Ok(k, db)
    ensures Ok(k, ConfirmConversion(k, db, user, id, checks).0)
  {
    hide Ok, Balance;
    var (db', reply) := ConfirmConversion(k, db, user, id, checks);
    if reply.Done? {
      ConversionPosted(k, db, db', db.quotes[id]);
    }
  }

  lemma ConversionPosted(k: World, db: DB, db': DB, q: Quote)
    requires WorldOk(k) && Ok(k, db) && k.owner(q.account).Some?
    requires Balance(db.journals, q.account, q.from, Available) >= q.input && q.input > 0 && q.output > 0 && q.fee > 0
    requires db'.journals == db.journals + [Journal(Conversion, ConversionPostings(k, q))]
    requires db'.withdrawals == db.withdrawals && db'.trades == db.trades && db'.deposits == db.deposits
    ensures Ok(k, db')
  {
    hide WithdrawalsOk, TradesOk, DepositsOk, Balance, TradingHeld, Balanced, ConversionPostings;
    var j := Journal(Conversion, ConversionPostings(k, q));
    ConversionBalanced(k, q);
    AllBalancedSnoc(db.journals, j);
    forall account: string, a: string
      ensures TradingHeld(db'.journals, account, a) == TradingHeld(db.journals, account, a)
      ensures Balance(db'.journals, account, a, Held) == Balance(db.journals, account, a, Held)
      ensures k.owner(account).Some? ==> Balance(db'.journals, account, a, Available) >= 0
    {
      TradingSnoc(db.journals, j, account, a);
      BalanceSnoc(db.journals, j, account, a, Held);
      BalanceSnoc(db.journals, j, account, a, Available);
      ConversionEffect(k, q, account, a, Held);
      ConversionEffect(k, q, account, a, Available);
    }
    assert forall account, a :: Claims(db', account, a) == Claims(db, account, a);
    OtherKeepsWithdrawals(k, db, db', j);
    OtherKeepsTrades(k, db, db', j);
    OtherKeepsDeposits(k, db, db', j);
  }

  lemma TradingOk(k: World, db: DB, postings: seq<Posting>)
    requires Ok(k, db) && TradingAllowed(k, db, postings)
    ensures Ok(k, Post(db, Trading, postings))
  {
    hide WithdrawalsOk, TradesOk, DepositsOk, Balance, TradingHeld, Balanced;
    var j, db' := Journal(Trading, postings), Post(db, Trading, postings);
    AllBalancedSnoc(db.journals, j);
    forall account: string, a: string
      ensures Balance(db'.journals, account, a, Held) == Claims(db', account, a) + TradingHeld(db'.journals, account, a)
    {
      TradingSnoc(db.journals, j, account, a);
      BalanceSnoc(db.journals, j, account, a, Held);
    }
    OtherKeepsWithdrawals(k, db, db', j);
    OtherKeepsTrades(k, db, db', j);
    OtherKeepsDeposits(k, db, db', j);
  }

  /** Rows that no invariant mentions. */
  lemma BystanderOk(k: World, db: DB, db': DB)
    requires Ok(k, db) && db'.journals == db.journals && db'.withdrawals == db.withdrawals
    requires db'.trades == db.trades && db'.deposits == db.deposits
    ensures Ok(k, db')
  {
  }

  lemma StepOk(k: World, db: DB, a: Action)
    requires WorldOk(k) && Ok(k, db)
    ensures Ok(k, Step(k, db, a))
  {
    hide Ok, RequestWithdrawal, ApproveWithdrawal, CancelWithdrawal, BeginDispatch, MarkSubmitted, CustodyUpdate,
         ObserveDeposit, ApproveDeposit, FlagDeposit, RejectDeposit, CreateTrade, Transfer, ConfirmConversion, Grant,
           TradingAllowed;
    match a
    case DoRequest(input, checks) => RequestOk(k, db, input, checks);
    case DoApprove(approver, id, checks) => ApproveOk(k, db, approver, id, checks);
    case DoCancel(user, id) => CancelOk(k, db, user, id);
    case DoBegin(provider, item, evidence, checks) => BeginOk(k, db, provider, item, evidence, checks);
    case DoMark(id, tx) => MarkOk(k, db, id, tx);
    case DoUpdate(tx, status) => UpdateOk(k, db, tx, status);
    case DoObserve(o, matched, funding) => ObserveOk(k, db, o, matched, funding);
    case DoCredit(id, checks, funding) => CreditOk(k, db, id, checks, funding);
    case DoFlag(id, risk) => FlagOk(k, db, id, risk);
    case DoReject(id) => RejectOk(k, db, id);
    case DoCreate(t, checks) => CreateOk(k, db, t, checks);
    case DoTransfer(user, from, to, asset, amount, checks) => TransferOk(k, db, user, from, to, asset, amount, checks);
    case DoQuote(q) => BystanderOk(k, db, Step(k, db, a));
    case DoConvert(user, id, checks) => ConvertOk(k, db, user, id, checks);
    case DoGrant(account, asset, amount) => GrantOk(k, db, account, asset, amount);
    case DoControls(controls) => BystanderOk(k, db, Step(k, db, a));
    case DoTrade(postings) =>
      if TradingAllowed(k, db, postings) {
        TradingOk(k, db, postings);
      }
    case _ => TradeStepOk(k, db, a);
  }

  lemma NewOk(k: World, controls: Controls)
    ensures Ok(k, NewDB(controls))
  {
  }

  /** Every reachable state is in order. */
  lemma {:induction false} RunOk(k: World, controls: Controls, actions: seq<Action>)
    requires WorldOk(k)
    ensures Ok(k, Run(k, controls, actions))
  {
    hide Ok, Step;
    if actions == [] {
      NewOk(k, controls);
    } else {
      RunOk(k, controls, actions[..|actions| - 1]);
      StepOk(k, Run(k, controls, actions[..|actions| - 1]), actions[|actions| - 1]);
    }
  }

  // What follows in every reachable state.

  /** Each asset nets to zero over all accounts and buckets, and no customer is overdrawn. */
  lemma LedgerBalances(k: World, controls: Controls, actions: seq<Action>, account: string, asset: string)
    requires WorldOk(k)
    ensures var db := Run(k, controls, actions);
      && AssetTotal(db.journals, asset) == 0
      && (k.owner(account).Some? ==> Balance(db.journals, account, asset, Available) >= 0)
      && Balance(db.journals, account, asset, Held)
        == Claims(db, account, asset) + TradingHeld(db.journals, account, asset)
      && Balance(db.journals, account, asset, Held) >= 0
  {
    hide Run, Balance, TradingHeld, WithdrawalsOk, TradesOk, DepositsOk;
    var db := Run(k, controls, actions);
    RunOk(k, controls, actions);
    ZeroSum(db.journals, asset);
    ClaimsNonNegative(db, account, asset);
  }

  lemma ClaimsNonNegative(db: DB, account: string, asset: string)
    ensures Sum(HoldWeights(db.withdrawals, account, asset)) >= 0 && Sum(EscrowWeights(db.trades, account, asset)) >= 0
  {
    SumNonNegative(HoldWeights(db.withdrawals, account, asset));
    SumNonNegative(EscrowWeights(db.trades, account, asset));
  }

  lemma EscrowIsHeld(k: World, db: DB, id: nat)
    requires Ok(k, db) && id < |db.trades| && Escrowed(db.trades[id].status)
    ensures Balance(db.journals, db.trades[id].sellerAccount, db.trades[id].asset, Held) >= db.trades[id].amount
  {
    hide Balance, TradingHeld, WithdrawalsOk, TradesOk, DepositsOk;
    var t := db.trades[id];
    ClaimsNonNegative(db, t.sellerAccount, t.asset);
    SumLeast(EscrowWeights(db.trades, t.sellerAccount, t.asset), id);
  }

  /** Release and refund never find too little held: the insufficient-balance branches are never taken. */
  lemma EscrowAlwaysCovered(k: World, controls: Controls, actions: seq<Action>, id: nat, status: TradeStatus)
    requires WorldOk(k) && id < |Run(k, controls, actions).trades|
    requires Escrowed(Run(k, controls, actions).trades[id].status)
    ensures var db := Run(k, controls, actions);
      && RefundEscrow(db, id, status).1.Done?
      && (db.trades[id].buyerAccount != "" ==> ReleaseEscrow(db, id).1.Done?)
  {
    hide Run, Balance, Ok;
    RunOk(k, controls, actions);
    EscrowIsHeld(k, Run(k, controls, actions), id);
  }

  /** The hold of an open withdrawal stands, so the dispatch check for it never fails. */
  lemma HoldAlwaysStands(k: World, db: DB, id: nat)
    requires Ok(k, db) && id < |db.withdrawals| && !Terminal(db.withdrawals[id].status)
    ensures HoldStands(db, id)
  {
    hide Balance, TradingHeld, TradesOk, DepositsOk, CountOf;
    var w := db.withdrawals[id];
    assert WithdrawalPosted(db.journals, id, w);
    CountPositive(db.journals, WithdrawalCancel(id));
    CountPositive(db.journals, WithdrawalRelease(id));
    CountPositive(db.journals, WithdrawalSettlement(id));
    ClaimsNonNegative(db, w.account, w.asset);
    SumLeast(HoldWeights(db.withdrawals, w.account, w.asset), id);
  }

  /** Every hold is undone exactly once, by exactly one of its paths, and only when the withdrawal ended. */
  lemma HoldUndoneOnce(k: World, controls: Controls, actions: seq<Action>, id: nat)
    requires WorldOk(k) && id < |Run(k, controls, actions).withdrawals|
    ensures var db := Run(k, controls, actions);
      && CountOf(db.journals, WithdrawalHold(id)) == 1
      && CountOf(db.journals, WithdrawalCancel(id)) + CountOf(db.journals, WithdrawalRelease(id))
         + CountOf(db.journals, WithdrawalSettlement(id)) == Flag(Terminal(db.withdrawals[id].status))
  {
    hide Run, CountOf, LedgerOk, HoldsOk, TradesOk, DepositsOk;
    RunOk(k, controls, actions);
    assert WithdrawalPosted(Run(k, controls, actions).journals, id, Run(k, controls, actions).withdrawals[id]);
  }

  lemma EscrowUndoneOnce(k: World, controls: Controls, actions: seq<Action>, id: nat)
    requires WorldOk(k) && id < |Run(k, controls, actions).trades|
    ensures var db := Run(k, controls, actions);
      && CountOf(db.journals, Escrow(id)) == 1
      && CountOf(db.journals, EscrowRelease(id)) + CountOf(db.journals, EscrowRefund(id))
        == Flag(!Escrowed(db.trades[id].status))
  {
    hide Run, CountOf, LedgerOk, HoldsOk, WithdrawalsOk, DepositsOk;
    RunOk(k, controls, actions);
    assert TradePosted(Run(k, controls, actions).journals, id, Run(k, controls, actions).trades[id]);
  }
}
