/** Every balance is accounted for by the rows of the other tables and by what came in and was passed on. */
module Statements {
  import opened Options
  import opened Sums
  import opened Ledger
  import opened Money
  import opened MoneyRuns
  import Idempotency

  datatype Place = Place(account: string, asset: string, bucket: Bucket)

  function BalanceAt(db: DB, p: Place): int {
    Balance(db.journals, p.account, p.asset, p.bucket)
  }

  /** An amount, if it is entered at this place. */
  function At(p: Place, account: string, asset: string, bucket: Bucket, amount: int): int {
    if p.account == account && p.asset == asset && p.bucket == bucket then amount else 0
  }

  // What each row stands for.

  /** A withdrawal holds its amount until it ended; completed, the amount went to clearing. */
  function WithdrawalStake(k: World, w: Withdrawal, p: Place): int {
    match w.status
    case Completed =>
      At(p, w.account, w.asset, Available, 0 - w.amount) + At(p, k.clearing(w.asset), w.asset, Available, w.amount)
    case Failed => 0
    case Cancelled => 0
    case _ => At(p, w.account, w.asset, Available, 0 - w.amount) + At(p, w.account, w.asset, Held, w.amount)
  }

  /** A trade holds the seller's amount until it ended; released, the amount is the buyer's. */
  function TradeStake(t: P2PTrade, p: Place): int {
    match t.status
    case TradeReleased =>
      At(p, t.sellerAccount, t.asset, Available, 0 - t.amount) + At(p, t.buyerAccount, t.asset, Available, t.amount)
    case Refunded => 0
    case TradeCancelled => 0
    case Expired => 0
    case _ => At(p, t.sellerAccount, t.asset, Available, 0 - t.amount) + At(p, t.sellerAccount, t.asset, Held, t.amount)
  }

  /** A confirmed quote took the input and paid output and fee. */
  function QuoteStake(k: World, q: Quote, p: Place): int {
    if !q.confirmed then 0
    else
      At(p, q.account, q.from, Available, 0 - q.input) + At(p, k.treasury(q.from), q.from, Available, q.input)
      + At(p, k.treasury(q.to), q.to, Available, 0 - (q.output + q.fee))
      + At(p, q.account, q.to, Available, q.output) + At(p, k.conversionFees(q.to), q.to, Available, q.fee)
  }

  /** A credited deposit came from clearing. */
  function DepositStake(k: World, d: Deposit, p: Place): int {
    if d.status.Credited? then At(p, k.clearing(d.asset), d.asset, Available, 0 - d.amount) else 0
  }

  function WithdrawalStakes(k: World, rows: seq<Withdrawal>, p: Place): (stakes: seq<int>)
    ensures |stakes| == |rows| && forall i | 0 <= i < |rows| :: stakes[i] == WithdrawalStake(k, rows[i], p)
  {
    seq(|rows|, i requires 0 <= i < |rows| => WithdrawalStake(k, rows[i], p))
  }

  function TradeStakes(rows: seq<P2PTrade>, p: Place): (stakes: seq<int>)
    ensures |stakes| == |rows| && forall i | 0 <= i < |rows| :: stakes[i] == TradeStake(rows[i], p)
  {
    seq(|rows|, i requires 0 <= i < |rows| => TradeStake(rows[i], p))
  }

  function QuoteStakes(k: World, rows: seq<Quote>, p: Place): (stakes: seq<int>)
    ensures |stakes| == |rows| && forall i | 0 <= i < |rows| :: stakes[i] == QuoteStake(k, rows[i], p)
  {
    seq(|rows|, i requires 0 <= i < |rows| => QuoteStake(k, rows[i], p))
  }

  function DepositStakes(k: World, rows: seq<Deposit>, p: Place): (stakes: seq<int>)
    ensures |stakes| == |rows| && forall i | 0 <= i < |rows| :: stakes[i] == DepositStake(k, rows[i], p)
  {
    seq(|rows|, i requires 0 <= i < |rows| => DepositStake(k, rows[i], p))
  }

  /** What the rows of all tables stand for at a place. */
  function Stakes(k: World, db: DB, p: Place): int {
    Sum(WithdrawalStakes(k, db.withdrawals, p)) + Sum(TradeStakes(db.trades, p)) + Sum(QuoteStakes(k, db.quotes, p))
    + Sum(DepositStakes(k, db.deposits, p))
  }

  // What no row stands for.

  predicate Arrived(db: DB, db': DB, i: nat) {
    i < |db'.deposits| && db'.deposits[i].status.Credited? && (i < |db.deposits| ==> !db.deposits[i].status.Credited?)
  }

  function Arrivals(db: DB, db': DB, asset: string): (amounts: seq<int>)
    ensures |amounts| == |db'.deposits|
    ensures forall i | 0 <= i < |amounts| ::
      amounts[i] == if Arrived(db, db', i) && db'.deposits[i].asset == asset then db'.deposits[i].amount else 0
  {
    seq(|db'.deposits|, i requires 0 <= i < |db'.deposits| =>
          if Arrived(db, db', i) && db'.deposits[i].asset == asset then db'.deposits[i].amount else 0)
  }

  /** Deposits credited by this step go to the funding account. */
  function Received(db: DB, db': DB, funding: Option<string>, p: Place): int {
    if funding == Some(p.account) && p.bucket == Available then Sum(Arrivals(db, db', p.asset)) else 0
  }

  /** Money a step brings in or passes on: deposits, transfers, test money, settled trading. */
  function Passed(k: World, db: DB, db': DB, a: Action, p: Place): int {
    match a
    case DoObserve(_, _, funding) => Received(db, db', funding, p)
    case DoCredit(_, _, funding) => Received(db, db', funding, p)
    case DoTransfer(_, from, to, asset, amount, _) =>
      if db'.journals == db.journals then 0
      else At(p, from, asset, Available, 0 - amount) + At(p, to, asset, Available, amount)
    case DoGrant(account, asset, amount) =>
      if db'.grants == db.grants then 0
      else At(p, k.issuance(asset), asset, Available, 0 - amount) + At(p, account, asset, Available, amount)
    case DoTrade(postings) =>
      if db'.journals == db.journals then 0 else Effect(postings, p.account, p.asset, p.bucket)
    case _ => 0
  }

  ghost function PassedIn(k: World, controls: Controls, actions: seq<Action>, p: Place): int {
    if actions == [] then 0
    else
      var before := actions[..|actions| - 1];
      PassedIn(k, controls, before, p)
      + Passed(k, Run(k, controls, before), Run(k, controls, actions), actions[|actions| - 1], p)
  }

  // One step.

  /** The step moves the balance by what its rows and its passing on say. */
  ghost predicate Accounts(k: World, db: DB, a: Action, p: Place) {
    var db' := Step(k, db, a);
    BalanceAt(db', p) - BalanceAt(db, p) == Stakes(k, db', p) - Stakes(k, db, p) + Passed(k, db, db', a, p)
  }

  lemma PostAt(db: DB, source: Source, asset: string, amount: nat, from: string, fromBucket: Bucket, to: string,
               toBucket: Bucket, p: Place)
    ensures var journals := db.journals + [Journal(source, Move(asset, amount, from, fromBucket, to, toBucket))];
      Balance(journals, p.account, p.asset, p.bucket)
      == BalanceAt(db, p) + At(p, from, asset, fromBucket, 0 - amount) + At(p, to, asset, toBucket, amount)
  {
    hide Balance, Effect;
    BalanceSnoc(db.journals, Journal(source, Move(asset, amount, from, fromBucket, to, toBucket)), p.account, p.asset,
                p.bucket);
    MoveEffect(asset, amount, from, fromBucket, to, toBucket, p.account, p.asset, p.bucket);
  }

  lemma SetWithdrawalStake(k: World, rows: seq<Withdrawal>, id: nat, w: Withdrawal, p: Place)
    requires id < |rows|
    ensures Sum(WithdrawalStakes(k, rows[id := w], p))
         == Sum(WithdrawalStakes(k, rows, p)) - WithdrawalStake(k, rows[id], p) + WithdrawalStake(k, w, p)
  {
    hide WithdrawalStake;
    var stakes := WithdrawalStakes(k, rows, p);
    assert WithdrawalStakes(k, rows[id := w], p) == stakes[id := WithdrawalStake(k, w, p)];
    SumUpdate(stakes, id, WithdrawalStake(k, w, p));
  }

  lemma AddWithdrawalStake(k: World, rows: seq<Withdrawal>, w: Withdrawal, p: Place)
    ensures Sum(WithdrawalStakes(k, rows + [w], p)) == Sum(WithdrawalStakes(k, rows, p)) + WithdrawalStake(k, w, p)
  {
    hide WithdrawalStake;
    assert WithdrawalStakes(k, rows + [w], p) == WithdrawalStakes(k, rows, p) + [WithdrawalStake(k, w, p)];
    SumSnoc(WithdrawalStakes(k, rows, p), WithdrawalStake(k, w, p));
  }

  lemma SetTradeStake(rows: seq<P2PTrade>, id: nat, t: P2PTrade, p: Place)
    requires id < |rows|
    ensures Sum(TradeStakes(rows[id := t], p)) == Sum(TradeStakes(rows, p)) - TradeStake(rows[id], p) + TradeStake(t, p)
  {
    hide TradeStake;
    var stakes := TradeStakes(rows, p);
    assert TradeStakes(rows[id := t], p) == stakes[id := TradeStake(t, p)];
    SumUpdate(stakes, id, TradeStake(t, p));
  }

  lemma AddTradeStake(rows: seq<P2PTrade>, t: P2PTrade, p: Place)
    ensures Sum(TradeStakes(rows + [t], p)) == Sum(TradeStakes(rows, p)) + TradeStake(t, p)
  {
    hide TradeStake;
    assert TradeStakes(rows + [t], p) == TradeStakes(rows, p) + [TradeStake(t, p)];
    SumSnoc(TradeStakes(rows, p), TradeStake(t, p));
  }

  lemma SetQuoteStake(k: World, rows: seq<Quote>, id: nat, q: Quote, p: Place)
    requires id < |rows|
    ensures Sum(QuoteStakes(k, rows[id := q], p))
         == Sum(QuoteStakes(k, rows, p)) - QuoteStake(k, rows[id], p) + QuoteStake(k, q, p)
  {
    hide QuoteStake;
    var stakes := QuoteStakes(k, rows, p);
    assert QuoteStakes(k, rows[id := q], p) == stakes[id := QuoteStake(k, q, p)];
    SumUpdate(stakes, id, QuoteStake(k, q, p));
  }

  lemma AddQuoteStake(k: World, rows: seq<Quote>, q: Quote, p: Place)
    ensures Sum(QuoteStakes(k, rows + [q], p)) == Sum(QuoteStakes(k, rows, p)) + QuoteStake(k, q, p)
  {
    hide QuoteStake;
    assert QuoteStakes(k, rows + [q], p) == QuoteStakes(k, rows, p) + [QuoteStake(k, q, p)];
    SumSnoc(QuoteStakes(k, rows, p), QuoteStake(k, q, p));
  }

  lemma SetDepositStake(k: World, rows: seq<Deposit>, id: nat, d: Deposit, p: Place)
    requires id < |rows|
    ensures Sum(DepositStakes(k, rows[id := d], p))
         == Sum(DepositStakes(k, rows, p)) - DepositStake(k, rows[id], p) + DepositStake(k, d, p)
  {
    hide DepositStake;
    var stakes := DepositStakes(k, rows, p);
    assert DepositStakes(k, rows[id := d], p) == stakes[id := DepositStake(k, d, p)];
    SumUpdate(stakes, id, DepositStake(k, d, p));
  }

  lemma AddDepositStake(k: World, rows: seq<Deposit>, d: Deposit, p: Place)
    ensures Sum(DepositStakes(k, rows + [d], p)) == Sum(DepositStakes(k, rows, p)) + DepositStake(k, d, p)
  {
    hide DepositStake;
    assert DepositStakes(k, rows + [d], p) == DepositStakes(k, rows, p) + [DepositStake(k, d, p)];
    SumSnoc(DepositStakes(k, rows, p), DepositStake(k, d, p));
  }

  // Withdrawals.

  lemma RequestAccounts(k: World, db: DB, input: WithdrawalInput, checks: Checks, p: Place)
    ensures Accounts(k, db, DoRequest(input, checks), p)
  {
    hide Balance, Sum, WithdrawalStakes, MayRequest, FindKey, Move;
    var (db', reply) := RequestWithdrawal(k, db, input, checks);
    if reply.Created? {
      AddWithdrawalStake(k, db.withdrawals, NewWithdrawal(db, input), p);
      PostAt(db, WithdrawalHold(|db.withdrawals|), input.asset, input.amount, input.account, Available, input.account,
             Held, p);
    }
  }

  lemma ApproveAccounts(k: World, db: DB, approver: string, id: nat, checks: Checks, p: Place)
    ensures Accounts(k, db, DoApprove(approver, id, checks), p)
  {
    hide Balance, Sum, WithdrawalStakes;
    var (db', reply) := ApproveWithdrawal(db, approver, id, checks);
    if reply.Done? {
      SetWithdrawalStake(k, db.withdrawals, id, db'.withdrawals[id], p);
    }
  }

  lemma CancelAccounts(k: World, db: DB, user: string, id: nat, p: Place)
    ensures Accounts(k, db, DoCancel(user, id), p)
  {
    hide Balance, Sum, WithdrawalStakes, Move;
    var (db', reply) := CancelWithdrawal(db, user, id);
    if reply.Done? {
      var w := db.withdrawals[id];
      SetWithdrawalStake(k, db.withdrawals, id, db'.withdrawals[id], p);
      PostAt(db, WithdrawalCancel(id), w.asset, w.amount, w.account, Held, w.account, Available, p);
    }
  }

  lemma BeginAccounts(k: World, db: DB, provider: string, item: Item, evidence: Option<Evidence>, checks: Checks,
                      p: Place)
    ensures Accounts(k, db, DoBegin(provider, item, evidence, checks), p)
  {
    hide Balance, Sum, WithdrawalStakes, HoldStands, HasCapacity, Entitled, ItemOf;
    var (db', reply) := BeginDispatch(k, db, provider, item, evidence, checks);
    if reply.Done? {
      SetWithdrawalStake(k, db.withdrawals, item.id, db'.withdrawals[item.id], p);
    }
  }

  lemma MarkAccounts(k: World, db: DB, id: nat, tx: string, p: Place)
    ensures Accounts(k, db, DoMark(id, tx), p)
  {
    hide Balance, Sum, WithdrawalStakes, FindTx;
    var (db', reply) := MarkSubmitted(db, id, tx);
    if db' != db {
      SetWithdrawalStake(k, db.withdrawals, id, db'.withdrawals[id], p);
    }
  }

  lemma UpdateAccounts(k: World, db: DB, tx: string, status: ProviderStatus, p: Place)
    ensures Accounts(k, db, DoUpdate(tx, status), p)
  {
    hide Balance, Sum, WithdrawalStakes, FindTx, Move;
    var (db', reply) := CustodyUpdate(k, db, tx, status);
    if db' != db {
      var id := FindTx(db.withdrawals, tx);
      var w := db.withdrawals[id];
      SetWithdrawalStake(k, db.withdrawals, id, db'.withdrawals[id], p);
      PostAt(db, WithdrawalSettlement(id), w.asset, w.amount, w.account, Held, k.clearing(w.asset), Available, p);
      PostAt(db, WithdrawalRelease(id), w.asset, w.amount, w.account, Held, w.account, Available, p);
    }
  }

  // Trades.

  lemma CreateAccounts(k: World, db: DB, t: P2PTrade, checks: Checks, p: Place)
    ensures Accounts(k, db, DoCreate(t, checks), p)
  {
    hide Balance, Sum, TradeStakes, Move;
    var (db', reply) := CreateTrade(k, db, t, checks);
    if reply.Created? {
      var id := |db.trades|;
      AddTradeStake(db.trades, db'.trades[id], p);
      PostAt(db, Escrow(id), t.asset, t.amount, t.sellerAccount, Available, t.sellerAccount, Held, p);
    }
  }

  predicate Turns(a: Action) {
    a.DoAccept? || a.DoPay? || a.DoDispute?
  }

  lemma TurnAccounts(k: World, db: DB, a: Action, p: Place)
    requires Turns(a)
    ensures Accounts(k, db, a, p)
  {
    hide Balance, Sum, TradeStakes;
    var db' := Step(k, db, a);
    if db' != db {
      SetTradeStake(db.trades, a.id, db'.trades[a.id], p);
    }
  }

  predicate Ends(a: Action) {
    a.DoRelease? || a.DoCancelTrade? || a.DoExpire? || a.DoResolve?
  }

  /** Released, the amount leaves the seller's hold for the buyer; ended otherwise, it is the seller's again. */
  function EscrowMove(t: P2PTrade, released: bool, p: Place): int {
    At(p, t.sellerAccount, t.asset, Held, 0 - t.amount)
    + At(p, if released then t.buyerAccount else t.sellerAccount, t.asset, Available, t.amount)
  }

  lemma EndMoves(k: World, db: DB, a: Action, p: Place)
    requires Ends(a)
    ensures var db' := Step(k, db, a);
      db' == db ||
      (&& a.id < |db.trades| && Escrowed(db.trades[a.id].status)
       && db' == db.(trades := db.trades[a.id := db'.trades[a.id]], journals := db'.journals)
       && var s := db'.trades[a.id].status;
          && db'.trades[a.id] == db.trades[a.id].(status := s)
          && (s.TradeReleased? || s.Refunded? || s.TradeCancelled? || s.Expired?)
          && BalanceAt(db', p) - BalanceAt(db, p) == EscrowMove(db.trades[a.id], s.TradeReleased?, p))
  {
    hide Balance, Move;
    var db' := Step(k, db, a);
    if db' != db {
      var t := db.trades[a.id];
      PostAt(db, EscrowRelease(a.id), t.asset, t.amount, t.sellerAccount, Held, t.buyerAccount, Available, p);
      PostAt(db, EscrowRefund(a.id), t.asset, t.amount, t.sellerAccount, Held, t.sellerAccount, Available, p);
    }
  }

  lemma EndAccounts(k: World, db: DB, a: Action, p: Place)
    requires Ends(a)
    ensures Accounts(k, db, a, p)
  {
    hide Balance, Sum, TradeStakes, Step;
    EndMoves(k, db, a, p);
    var db' := Step(k, db, a);
    if db' != db {
      SetTradeStake(db.trades, a.id, db'.trades[a.id], p);
    }
  }

  // Conversions, transfers and test money.

  lemma EffectFrom(postings: seq<Posting>, i: nat, p: Place)
    requires i < |postings|
    ensures Effect(postings[i..], p.account, p.asset, p.bucket)
         == At(p, postings[i].account, postings[i].asset, postings[i].bucket, postings[i].Signed())
            + Effect(postings[i + 1..], p.account, p.asset, p.bucket)
  {
    assert postings[i..][1..] == postings[i + 1..];
  }

  lemma ConversionEffect(k: World, q: Quote, p: Place)
    requires !q.confirmed
    ensures Effect(ConversionPostings(k, q), p.account, p.asset, p.bucket) == QuoteStake(k, q.(confirmed := true), p)
  {
    var ps := ConversionPostings(k, q);
    EffectFrom(ps, 0, p);
    EffectFrom(ps, 1, p);
    EffectFrom(ps, 2, p);
    EffectFrom(ps, 3, p);
    EffectFrom(ps, 4, p);
    assert ps[0..] == ps && ps[5..] == [];
  }

  lemma ConvertAccounts(k: World, db: DB, user: string, id: nat, checks: Checks, p: Place)
    ensures Accounts(k, db, DoConvert(user, id, checks), p)
  {
    hide Balance, Sum, QuoteStakes, Effect, ConversionPostings, QuoteStake;
    var (db', reply) := ConfirmConversion(k, db, user, id, checks);
    if reply.Done? {
      var q := db.quotes[id];
      SetQuoteStake(k, db.quotes, id, q.(confirmed := true), p);
      Unconfirmed(k, q, p);
      BalanceSnoc(db.journals, Journal(Conversion, ConversionPostings(k, q)), p.account, p.asset, p.bucket);
      ConversionEffect(k, q, p);
    }
  }

  lemma Unconfirmed(k: World, q: Quote, p: Place)
    ensures !q.confirmed ==> QuoteStake(k, q, p) == 0
  {
  }

  lemma QuoteAccounts(k: World, db: DB, q: Quote, p: Place)
    ensures Accounts(k, db, DoQuote(q), p)
  {
    hide Balance, Sum, QuoteStakes;
    AddQuoteStake(k, db.quotes, q.(confirmed := false), p);
  }

  lemma TransferAccounts(k: World, db: DB, a: Action, p: Place)
    requires a.DoTransfer?
    ensures Accounts(k, db, a, p)
  {
    hide Balance, Sum, Move;
    PostAt(db, InternalTransfer, a.asset, a.amount, a.from, Available, a.to, Available, p);
  }

  lemma GrantAccounts(k: World, db: DB, a: Action, p: Place)
    requires a.DoGrant?
    ensures Accounts(k, db, a, p)
  {
    hide Balance, Sum, Move;
    PostAt(db, Issuance, a.asset, a.amount, k.issuance(a.asset), Available, a.account, Available, p);
  }

  lemma TradingAccounts(k: World, db: DB, a: Action, p: Place)
    requires a.DoTrade?
    ensures Accounts(k, db, a, p)
  {
    hide Balance, Sum, Effect, TradingAllowed;
    BalanceSnoc(db.journals, Journal(Trading, a.postings), p.account, p.asset, p.bucket);
  }

  // Deposits.

  /** Nothing arrived. */
  lemma NoArrivals(db: DB, db': DB, asset: string)
    requires forall i | 0 <= i < |db'.deposits| :: !Arrived(db, db', i)
    ensures Sum(Arrivals(db, db', asset)) == 0
  {
    NoneSum(Arrivals(db, db', asset));
  }

  lemma {:induction false} NoneSum(s: seq<int>)
    requires forall i | 0 <= i < |s| :: s[i] == 0
    ensures Sum(s) == 0
  {
    if s != [] {
      NoneSum(s[..|s| - 1]);
    }
  }

  lemma {:induction false} OneSum(s: seq<int>, id: nat)
    requires id < |s| && forall i | 0 <= i < |s| && i != id :: s[i] == 0
    ensures Sum(s) == s[id]
  {
    if id == |s| - 1 {
      NoneSum(s[..id]);
    } else {
      OneSum(s[..|s| - 1], id);
    }
  }

  /** Row `id` is new or changed; `credited` says whether it was credited now. */
  predicate DepositRow(db: DB, db': DB, id: nat, d: Deposit) {
    && id <= |db.deposits|
    && db'.deposits == (if id < |db.deposits| then db.deposits[id := d] else db.deposits + [d])
    && (id < |db.deposits| ==>
          && (db.deposits[id].status.Credited? ==> d.status.Credited?)
          && d.asset == db.deposits[id].asset && d.amount == db.deposits[id].amount)
  }

  predicate CreditedNow(db: DB, id: nat, d: Deposit) {
    d.status.Credited? && (id < |db.deposits| ==> !db.deposits[id].status.Credited?)
  }

  lemma DepositChange(k: World, db: DB, db': DB, id: nat, d: Deposit, p: Place)
    requires DepositRow(db, db', id, d)
    ensures Sum(DepositStakes(k, db'.deposits, p)) - Sum(DepositStakes(k, db.deposits, p))
         == if CreditedNow(db, id, d) then At(p, k.clearing(d.asset), d.asset, Available, 0 - d.amount) else 0
    ensures Sum(Arrivals(db, db', p.asset)) == if CreditedNow(db, id, d) && d.asset == p.asset then d.amount else 0
  {
    hide Sum, DepositStakes;
    if id < |db.deposits| {
      SetDepositStake(k, db.deposits, id, d, p);
    } else {
      AddDepositStake(k, db.deposits, d, p);
    }
    OneSum(Arrivals(db, db', p.asset), id);
  }

  lemma CreditMoves(k: World, db: DB, id: nat, d: Deposit, account: string, p: Place)
    ensures Balance(db.journals
      + [Journal(DepositCredit(id), Move(d.asset, d.amount, k.clearing(d.asset), Available, account,
                                                                   Available))], p.account, p.asset, p.bucket)
         == BalanceAt(db, p) + At(p, k.clearing(d.asset), d.asset, Available, 0 - d.amount)
            + At(p, account, d.asset, Available, d.amount)
  {
    hide Balance, Move;
    PostAt(db, DepositCredit(id), d.asset, d.amount, k.clearing(d.asset), Available, account, Available, p);
  }

  /** What a deposit step may do: change one row, and credit it to the funding account if it became credited. */
  ghost predicate DepositStep(k: World, db: DB, db': DB, id: nat, d: Deposit, funding: Option<string>) {
    && DepositRow(db, db', id, d) && db' == db.(deposits := db'.deposits, journals := db'.journals)
    && if !CreditedNow(db, id, d) then db'.journals == db.journals
       else
         && funding.Some?
         && db'.journals
           == db.journals + [Journal(DepositCredit(id), Move(d.asset, d.amount, k.clearing(d.asset), Available,
                                                                           funding.value, Available))]
  }

  lemma DepositAccounts(k: World, db: DB, a: Action, id: nat, d: Deposit, p: Place)
    requires a.DoObserve? || a.DoCredit?
    requires DepositStep(k, db, Step(k, db, a), id, d, a.funding)
    ensures Accounts(k, db, a, p)
  {
    hide Balance, Sum, Step, DepositStakes, DepositRow, Move, Arrivals;
    var db' := Step(k, db, a);
    DepositChange(k, db, db', id, d, p);
    if CreditedNow(db, id, d) {
      CreditMoves(k, db, id, d, a.funding.value, p);
    }
  }

  lemma UnchangedAccounts(k: World, db: DB, a: Action, p: Place)
    requires Step(k, db, a) == db && !a.DoTransfer? && !a.DoGrant? && !a.DoTrade?
    ensures Accounts(k, db, a, p)
  {
    hide Step, Balance, Stakes;
    NoArrivals(db, db, p.asset);
  }

  lemma ObserveStep(k: World, db: DB, o: Observation, matched: bool, funding: Option<string>)
    ensures var db' := ObserveDeposit(k, db, o, matched, funding).0;
      db' == db || exists id, d :: DepositStep(k, db, db', id, d, funding)
  {
    hide FindDeposit, Move;
    var (db', reply) := ObserveDeposit(k, db, o, matched, funding);
    if db' != db {
      var i := FindDeposit(db.deposits, o.tx, o.index);
      var id := if i >= 0 then i else |db.deposits|;
      assert DepositStep(k, db, db', id, db'.deposits[id], funding);
    }
  }

  lemma ObserveAccounts(k: World, db: DB, a: Action, p: Place)
    requires a.DoObserve? || a.DoCredit?
    ensures Accounts(k, db, a, p)
  {
    hide DepositStep, Accounts, ObserveDeposit;
    var db' := Step(k, db, a);
    if db' == db {
      UnchangedAccounts(k, db, a, p);
    } else if a.DoObserve? {
      ObserveStep(k, db, a.observation, a.matched, a.funding);
      var id, d :| DepositStep(k, db, db', id, d, a.funding);
      DepositAccounts(k, db, a, id, d, p);
    } else {
      CreditStep(k, db, a.id, a.checks, a.funding);
      DepositAccounts(k, db, a, a.id, db'.deposits[a.id], p);
    }
  }

  lemma CreditStep(k: World, db: DB, id: nat, checks: Checks, funding: Option<string>)
    ensures var db' := ApproveDeposit(k, db, id, checks, funding).0;
      db' == db || (id < |db'.deposits| && DepositStep(k, db, db', id, db'.deposits[id], funding))
  {
    hide Move;
  }

  lemma ReviewAccounts(k: World, db: DB, a: Action, p: Place)
    requires a.DoFlag? || a.DoReject?
    ensures Accounts(k, db, a, p)
  {
    hide Balance, Sum, DepositStakes;
    var db' := Step(k, db, a);
    if db' != db {
      SetDepositStake(k, db.deposits, a.id, db'.deposits[a.id], p);
    }
  }

  // Every run.

  lemma StepAccounts(k: World, db: DB, a: Action, p: Place)
    ensures Accounts(k, db, a, p)
  {
    hide Accounts, Step;
    match a
    case DoRequest(input, checks) => RequestAccounts(k, db, input, checks, p);
    case DoApprove(approver, id, checks) => ApproveAccounts(k, db, approver, id, checks, p);
    case DoCancel(user, id) => CancelAccounts(k, db, user, id, p);
    case DoBegin(provider, item, evidence, checks) => BeginAccounts(k, db, provider, item, evidence, checks, p);
    case DoMark(id, tx) => MarkAccounts(k, db, id, tx, p);
    case DoUpdate(tx, status) => UpdateAccounts(k, db, tx, status, p);
    case DoObserve(_, _, _) => ObserveAccounts(k, db, a, p);
    case DoCredit(_, _, _) => ObserveAccounts(k, db, a, p);
    case DoFlag(_, _) => ReviewAccounts(k, db, a, p);
    case DoReject(_) => ReviewAccounts(k, db, a, p);
    case DoCreate(t, checks) => CreateAccounts(k, db, t, checks, p);
    case DoAccept(_, _, _, _, _, _) => TurnAccounts(k, db, a, p);
    case DoPay(_, _, _, _) => TurnAccounts(k, db, a, p);
    case DoDispute(_, _, _) => TurnAccounts(k, db, a, p);
    case DoTransfer(_, _, _, _, _, _) => TransferAccounts(k, db, a, p);
    case DoQuote(q) => QuoteAccounts(k, db, q, p);
    case DoConvert(user, id, checks) => ConvertAccounts(k, db, user, id, checks, p);
    case DoGrant(_, _, _) => GrantAccounts(k, db, a, p);
    case DoControls(_) => ControlsAccounts(k, db, a, p);
    case DoTrade(_) => TradingAccounts(k, db, a, p);
    case _ => EndAccounts(k, db, a, p);
  }

  lemma ControlsAccounts(k: World, db: DB, a: Action, p: Place)
    requires a.DoControls?
    ensures Accounts(k, db, a, p)
  {
    hide Balance, Sum;
  }

  /**
   In every reachable state every balance is what the withdrawals, trades,
   quotes and deposits of that state stand for, plus what deposits, transfers,
   test money and trading passed on along the way.
   */
  lemma {:induction false} BalanceExplained(k: World, controls: Controls, actions: seq<Action>, p: Place)
    ensures var db := Run(k, controls, actions);
      BalanceAt(db, p) == Stakes(k, db, p) + PassedIn(k, controls, actions, p)
  {
    hide Stakes, Step, Passed, Balance;
    if actions == [] {
      NothingYet(k, controls, p);
    } else {
      var before := actions[..|actions| - 1];
      BalanceExplained(k, controls, before, p);
      StepAccounts(k, Run(k, controls, before), actions[|actions| - 1], p);
    }
  }

  lemma NothingYet(k: World, controls: Controls, p: Place)
    ensures BalanceAt(NewDB(controls), p) == 0 && Stakes(k, NewDB(controls), p) == 0
  {
  }

  /**
   Whatever request or timer ends an escrow, over every run: released, the
   seller's hold falls and the buyer's available balance rises by the amount;
   ended otherwise, the seller's own rises; no other balance changes.
   */
  lemma EscrowPays(k: World, controls: Controls, calls: seq<Idempotency.Call>, n: nat, id: nat, p: Place)
    requires n < |calls|
    requires var db := Idempotency.After(k, controls, calls[..n]).db; id < |db.trades| && Escrowed(db.trades[id].status)
    ensures var db, db' := Idempotency.After(k, controls, calls[..n]).db,
      Idempotency.After(k, controls, calls[..n + 1]).db;
      && id < |db'.trades|
      && (!Escrowed(db'.trades[id].status) ==>
            && db'.trades[id] == db.trades[id].(status := db'.trades[id].status)
            && BalanceAt(db', p) - BalanceAt(db, p)
               == EscrowMove(db.trades[id], db'.trades[id].status == TradeReleased, p))
  {
    hide Idempotency.Answer, Idempotency.Effective, Step, Balance, EscrowMove, Idempotency.After;
    var st := Idempotency.After(k, controls, calls[..n]);
    Idempotency.AfterStep(k, controls, calls, n);
    Idempotency.CallIsStep(k, st, calls[n]);
    var actions := Idempotency.Effective(k, st, calls[n]);
    if actions != [] {
      EscrowStep(k, st.db, actions[0], id, p);
    }
  }

  lemma EscrowStep(k: World, db: DB, a: Action, id: nat, p: Place)
    requires id < |db.trades| && Escrowed(db.trades[id].status)
    ensures var db' := Step(k, db, a);
      && id < |db'.trades|
      && (!Escrowed(db'.trades[id].status) ==>
            && db'.trades[id] == db.trades[id].(status := db'.trades[id].status)
            && BalanceAt(db', p) - BalanceAt(db, p)
              == EscrowMove(db.trades[id], db'.trades[id].status == TradeReleased, p))
  {
    hide Step, Balance, EscrowMove;
    if Ends(a) {
      EndMoves(k, db, a, p);
    } else {
      OthersKeepEscrow(k, db, a, id);
    }
  }

  lemma OthersKeepEscrow(k: World, db: DB, a: Action, id: nat)
    requires !Ends(a) && id < |db.trades| && Escrowed(db.trades[id].status)
    ensures id < |Step(k, db, a).trades| && Escrowed(Step(k, db, a).trades[id].status)
  {
    hide Step;
    if Idempotency.IsDeskAction(a) {
      DeskKeepsEscrow(k, db, a, id);
    } else {
      Idempotency.TradesKept(k, db, a);
    }
  }

  lemma DeskKeepsEscrow(k: World, db: DB, a: Action, id: nat)
    requires (Turns(a) || a.DoCreate?) && id < |db.trades| && Escrowed(db.trades[id].status)
    ensures id < |Step(k, db, a).trades| && Escrowed(Step(k, db, a).trades[id].status)
  {
    hide Balance;
  }
}
