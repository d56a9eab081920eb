/** While limits are in force, withdrawals stay within confirmed deposits of the same asset. */
module Entitlement {
  import opened Arithmetic
  import opened Options
  import opened Sums
  import opened Ledger
  import opened Money
  import opened MoneyRows
  import opened MoneyRuns

  // What every action keeps of the rows the limit is computed from.

  predicate RowKept(w: Withdrawal, w': Withdrawal) {
    SameWithdrawal(w, w') && (Terminal(w.status) ==> w'.status == w.status)
  }

  predicate DepositKept(d: Deposit, d': Deposit) {
    && SameDeposit(d, d') && d.confirmations <= d'.confirmations
    && (d.hash != "" ==> d'.hash != "") && (d.status.Credited? ==> d'.status.Credited? && d'.risk == d.risk)
  }

  /** Rows are never lost; they only grow in number. */
  predicate Kept(db: DB, db': DB) {
    && db.journals <= db'.journals && db.grants <= db'.grants
    && |db.withdrawals| <= |db'.withdrawals| && |db.deposits| <= |db'.deposits|
    && (forall i | 0 <= i < |db.withdrawals| :: RowKept(db.withdrawals[i], db'.withdrawals[i]))
    && (forall i | 0 <= i < |db.deposits| :: DepositKept(db.deposits[i], db'.deposits[i]))
  }

  lemma RequestKeeps(k: World, db: DB, input: WithdrawalInput, checks: Checks)
    ensures Kept(db, RequestWithdrawal(k, db, input, checks).0)
  {
    hide MayRequest, FindKey, HoldPostings;
  }

  lemma AskingKeeps(k: World, db: DB, a: Action)
    requires a.DoRequest? || a.DoApprove? || a.DoCancel?
    ensures Kept(db, Step(k, db, a))
  {
    hide RequestWithdrawal, UnholdPostings;
    if a.DoRequest? {
      RequestKeeps(k, db, a.input, a.checks);
    }
  }

  lemma UpdateKeeps(k: World, db: DB, tx: string, status: ProviderStatus)
    ensures Kept(db, CustodyUpdate(k, db, tx, status).0)
  {
    hide FindTx, Move, UnholdPostings;
  }

  lemma PayingKeeps(k: World, db: DB, a: Action)
    requires a.DoBegin? || a.DoMark? || a.DoUpdate?
    ensures Kept(db, Step(k, db, a))
  {
    hide Balance, Entitled, HoldStands, HasCapacity, FindKey, FindTx, CustodyUpdate;
    if a.DoUpdate? {
      UpdateKeeps(k, db, a.tx, a.status);
    }
  }

  predicate Withdraws(a: Action) {
    a.DoRequest? || a.DoApprove? || a.DoCancel? || a.DoBegin? || a.DoMark? || a.DoUpdate?
  }

  predicate Trades(a: Action) {
    a.DoCreate? || a.DoAccept? || a.DoPay? || a.DoDispute? || a.DoRelease? || a.DoCancelTrade? || a.DoExpire?
      || a.DoResolve?
  }

  lemma TradeKeeps(k: World, db: DB, a: Action)
    requires Trades(a)
    ensures Kept(db, Step(k, db, a)) && Step(k, db, a).withdrawals == db.withdrawals
  {
    hide Balance;
  }

  predicate Reviews(a: Action) {
    a.DoObserve? || a.DoCredit? || a.DoFlag? || a.DoReject?
  }

  /** One deposit row changes, or one is added. */
  lemma RowKeeps(db: DB, db': DB, id: nat)
    requires db' == db.(deposits := db'.deposits, journals := db'.journals) && db.journals <= db'.journals
    requires id <= |db.deposits| < |db'.deposits| + 1 && forall i | 0 <= i < |db.deposits| && i != id ::
      db'.deposits[i] == db.deposits[i]
    requires id < |db.deposits| ==> DepositKept(db.deposits[id], db'.deposits[id])
    ensures Kept(db, db')
  {
  }

  lemma ObserveKeeps(k: World, db: DB, o: Observation, matched: bool, funding: Option<string>)
    ensures var db' := ObserveDeposit(k, db, o, matched, funding).0; Kept(db, db') && db'.withdrawals == db.withdrawals
  {
    hide FindDeposit, Kept;
    var db' := ObserveDeposit(k, db, o, matched, funding).0;
    var i := FindDeposit(db.deposits, o.tx, o.index);
    RowKeeps(db, db', if i >= 0 then i else |db.deposits|);
  }

  lemma ReviewKeeps(k: World, db: DB, a: Action)
    requires Reviews(a)
    ensures Kept(db, Step(k, db, a)) && Step(k, db, a).withdrawals == db.withdrawals
  {
    hide ObserveDeposit, Kept;
    if a.DoObserve? {
      ObserveKeeps(k, db, a.observation, a.matched, a.funding);
    } else {
      RowKeeps(db, Step(k, db, a), if a.id < |db.deposits| then a.id else |db.deposits|);
    }
  }

  lemma RestKeeps(k: World, db: DB, a: Action)
    requires !Withdraws(a) && !Trades(a) && !Reviews(a)
    ensures Kept(db, Step(k, db, a)) && Step(k, db, a).withdrawals == db.withdrawals
  {
    hide Balance, TradingAllowed, ConversionPostings;
  }

  lemma OtherStepKeeps(k: World, db: DB, a: Action)
    requires !Withdraws(a)
    ensures Kept(db, Step(k, db, a)) && Step(k, db, a).withdrawals == db.withdrawals
  {
    hide Step, Kept;
    if Trades(a) {
      TradeKeeps(k, db, a);
    } else if Reviews(a) {
      ReviewKeeps(k, db, a);
    } else {
      RestKeeps(k, db, a);
    }
  }

  lemma StepKeeps(k: World, db: DB, a: Action)
    ensures Kept(db, Step(k, db, a))
  {
    hide Step, Kept;
    if a.DoRequest? || a.DoApprove? || a.DoCancel? {
      AskingKeeps(k, db, a);
    } else if Withdraws(a) {
      PayingKeeps(k, db, a);
    } else {
      OtherStepKeeps(k, db, a);
    }
  }

  lemma CompensatedStays(journals: seq<Journal>, more: seq<Journal>, id: nat)
    requires journals <= more && Compensated(journals, id)
    ensures Compensated(more, id)
  {
    var i :| 0 <= i < |journals|
      && (journals[i].source == WithdrawalRelease(id) || journals[i].source == WithdrawalCancel(id));
    assert more[i] == journals[i];
  }

  /** Without a new withdrawal, commitments do not rise. */
  lemma CommittedKept(db: DB, db': DB, user: string, asset: string)
    requires Kept(db, db')
    ensures Committed(db.(withdrawals := db'.withdrawals[..|db.withdrawals|], journals := db'.journals), user, asset)
      <= Committed(db, user, asset)
  {
    hide Compensated;
    var kept := db.(withdrawals := db'.withdrawals[..|db.withdrawals|], journals := db'.journals);
    var before, after := CommittedWeights(db, user, asset), CommittedWeights(kept, user, asset);
    forall i | 0 <= i < |before| ensures after[i] <= before[i] {
      assert RowKept(db.withdrawals[i], db'.withdrawals[i]);
      if Compensated(db.journals, i) {
        CompensatedStays(db.journals, db'.journals, i);
      }
    }
    SumMonotone(after, before);
  }

  lemma ConfirmedStays(k: World, db: DB, db': DB, id: nat)
    requires Kept(db, db') && id < |db.deposits| && Confirmed(k, db, id)
    ensures Confirmed(k, db', id)
  {
    assert DepositKept(db.deposits[id], db'.deposits[id]);
    var i :| 0 <= i < |db.journals| && Credits(k, db.journals[i], id, db.deposits[id]);
    assert db'.journals[i] == db.journals[i];
    assert Credits(k, db'.journals[i], id, db'.deposits[id]);
  }

  /** Confirmed deposits never fall. */
  lemma CreditedKept(k: World, db: DB, db': DB, user: string, asset: string)
    requires Kept(db, db') && (forall i | 0 <= i < |db'.deposits| :: db'.deposits[i].amount >= 0)
    ensures CreditedDeposits(k, db, user, asset) <= CreditedDeposits(k, db', user, asset)
  {
    hide Confirmed;
    var before, after := CreditedWeights(k, db, user, asset), CreditedWeights(k, db', user, asset);
    var n := |before|;
    forall i | 0 <= i < n ensures before[i] <= after[i] {
      assert DepositKept(db.deposits[i], db'.deposits[i]);
      if Confirmed(k, db, i) {
        ConfirmedStays(k, db, db', i);
      }
    }
    assert after == after[..n] + after[n..];
    SumConcat(after[..n], after[n..]);
    SumMonotone(before, after[..n]);
    SumNonNegative(after[n..]);
  }

  lemma OneMore(db: DB, db': DB, w: Withdrawal, user: string, asset: string)
    requires db'.withdrawals == db.withdrawals + [w] && db'.journals == db.journals && !Terminal(w.status)
    ensures Committed(db', user, asset) == Committed(db, user, asset) + if w.user == user && w.asset == asset
      then w.amount else 0
  {
    hide Compensated;
    var weight := if w.user == user && w.asset == asset then w.amount else 0;
    assert CommittedWeights(db', user, asset) == CommittedWeights(db, user, asset) + [weight];
    SumSnoc(CommittedWeights(db, user, asset), weight);
  }

  /** One action under enforcement: commitments rise only within confirmed deposits. */
  lemma StepWithin(k: World, db: DB, a: Action, user: string, asset: string)
    requires Enforced(db)
    ensures var db' := Step(k, db, a);
      && Committed(db', user, asset) <= Max(Committed(db, user, asset), CreditedDeposits(k, db, user, asset))
      && CreditedDeposits(k, db, user, asset) <= CreditedDeposits(k, db', user, asset)
  {
    hide Step, Committed, CreditedDeposits, Kept;
    var db' := Step(k, db, a);
    StepKeeps(k, db, a);
    CreditedKept(k, db, db', user, asset);
    CommittedKept(db, db', user, asset);
    if a.DoRequest? {
      IsRequest(k, db, a);
      RequestWithin(k, db, a.input, a.checks, user, asset);
    } else {
      SameCount(k, db, a);
      OnlyRows(db, db', user, asset);
    }
  }

  lemma IsRequest(k: World, db: DB, a: Action)
    requires a.DoRequest?
    ensures Step(k, db, a) == RequestWithdrawal(k, db, a.input, a.checks).0
  {
    hide RequestWithdrawal;
  }

  lemma SameCount(k: World, db: DB, a: Action)
    requires !a.DoRequest?
    ensures |Step(k, db, a).withdrawals| == |db.withdrawals|
  {
    hide Step;
    if a.DoApprove? || a.DoCancel? || a.DoBegin? || a.DoMark? || a.DoUpdate? {
      SameCountWithdrawals(k, db, a);
    } else {
      OtherStepKeeps(k, db, a);
    }
  }

  lemma SameCountWithdrawals(k: World, db: DB, a: Action)
    requires a.DoApprove? || a.DoCancel? || a.DoBegin? || a.DoMark? || a.DoUpdate?
    ensures |Step(k, db, a).withdrawals| == |db.withdrawals|
  {
    hide Entitled, HoldStands, HasCapacity, FindTx;
  }

  /** Commitments depend on the withdrawals and the journals only. */
  lemma OnlyRows(db: DB, db': DB, user: string, asset: string)
    requires |db'.withdrawals| == |db.withdrawals|
    ensures Committed(db.(withdrawals := db'.withdrawals[..|db.withdrawals|], journals := db'.journals), user, asset)
      == Committed(db', user, asset)
  {
    hide Compensated;
    var kept := db.(withdrawals := db'.withdrawals[..|db.withdrawals|], journals := db'.journals);
    assert CommittedWeights(kept, user, asset) == CommittedWeights(db', user, asset);
  }

  lemma RequestWithin(k: World, db: DB, input: WithdrawalInput, checks: Checks, user: string, asset: string)
    requires Enforced(db)
    ensures Committed(RequestWithdrawal(k, db, input, checks).0, user, asset)
         <= Max(Committed(db, user, asset), CreditedDeposits(k, db, user, asset))
  {
    hide Balance, FindKey, Committed, CreditedDeposits;
    var (db', reply) := RequestWithdrawal(k, db, input, checks);
    if reply.Created? {
      var posted := db.(journals := db'.journals);
      JournalsKept(db, posted, user, asset);
      OneMore(posted, db', NewWithdrawal(db, input), user, asset);
    }
  }

  lemma JournalsKept(db: DB, posted: DB, user: string, asset: string)
    requires posted == db.(journals := posted.journals) && db.journals <= posted.journals
    ensures Committed(posted, user, asset) <= Committed(db, user, asset)
  {
    hide Compensated;
    forall i | 0 <= i < |db.withdrawals|
      ensures CommittedWeights(posted, user, asset)[i] <= CommittedWeights(db, user, asset)[i]
    {
      if Compensated(db.journals, i) {
        CompensatedStays(db.journals, posted.journals, i);
      }
    }
    SumMonotone(CommittedWeights(posted, user, asset), CommittedWeights(db, user, asset));
  }

  // Runs.

  /** Enforcement cannot end once a grant exists. */
  lemma {:induction false} GrantKeepsEnforcement(k: World, controls: Controls, actions: seq<Action>, n: nat)
    requires n <= |actions| && Run(k, controls, actions[..n]).grants > 0
    ensures Run(k, controls, actions).grants > 0 && Enforced(Run(k, controls, actions))
    decreases |actions|
  {
    hide Step;
    if n == |actions| {
      assert actions[..n] == actions;
    } else {
      var shorter := actions[..|actions| - 1];
      assert shorter[..n] == actions[..n];
      GrantKeepsEnforcement(k, controls, shorter, n);
      StepKeeps(k, Run(k, controls, shorter), actions[|actions| - 1]);
    }
  }

  /** Limits are in force from position n on. */
  ghost predicate EnforcedFrom(k: World, controls: Controls, actions: seq<Action>, n: nat)
    requires n <= |actions|
  {
    forall m | n <= m < |actions| :: Enforced(Run(k, controls, actions[..m]))
  }

  /** From then on commitments never exceed the larger of confirmed deposits and what was committed at that point. */
  lemma {:induction false} WithinDeposits(k: World, controls: Controls, actions: seq<Action>, n: nat, user: string,
                                          asset: string)
    requires n <= |actions| && EnforcedFrom(k, controls, actions, n)
    ensures var db, start := Run(k, controls, actions), Run(k, controls, actions[..n]);
      && Committed(db, user, asset) <= Max(Committed(start, user, asset), CreditedDeposits(k, db, user, asset))
      && CreditedDeposits(k, start, user, asset) <= CreditedDeposits(k, db, user, asset)
    decreases |actions|
  {
    hide Step, Committed, CreditedDeposits, Enforced;
    if n == |actions| {
      assert actions[..n] == actions;
    } else {
      var shorter := actions[..|actions| - 1];
      assert shorter[..n] == actions[..n];
      forall m | n <= m < |shorter| ensures Enforced(Run(k, controls, shorter[..m])) {
        assert shorter[..m] == actions[..m];
      }
      WithinDeposits(k, controls, shorter, n, user, asset);
      assert Enforced(Run(k, controls, actions[..|actions| - 1]));
      StepWithin(k, Run(k, controls, shorter), actions[|actions| - 1], user, asset);
    }
  }

  /** Commitments are within confirmed deposits at every moment from n on. */
  ghost predicate AlwaysWithin(k: World, controls: Controls, actions: seq<Action>, n: nat, user: string, asset: string)
    requires n <= |actions|
  {
    forall m | n <= m <= |actions| ::
      Committed(Run(k, controls, actions[..m]), user, asset)
        <= CreditedDeposits(k, Run(k, controls, actions[..m]), user, asset)
  }

  /** They are exactly when they were at the moment the limits came into force. */
  lemma WithinExactly(k: World, controls: Controls, actions: seq<Action>, n: nat, user: string, asset: string)
    requires n <= |actions| && EnforcedFrom(k, controls, actions, n)
    ensures AlwaysWithin(k, controls, actions, n, user, asset) <==>
      Committed(Run(k, controls, actions[..n]), user, asset)
        <= CreditedDeposits(k, Run(k, controls, actions[..n]), user, asset)
  {
    hide Step, Committed, CreditedDeposits, Enforced, Run;
    if Committed(Run(k, controls, actions[..n]), user, asset)
      <= CreditedDeposits(k, Run(k, controls, actions[..n]), user, asset) {
      forall m | n <= m <= |actions|
        ensures Committed(Run(k, controls, actions[..m]), user, asset)
          <= CreditedDeposits(k, Run(k, controls, actions[..m]), user, asset)
      {
        var upto := actions[..m];
        assert upto[..n] == actions[..n];
        forall i | n <= i < |upto| ensures Enforced(Run(k, controls, upto[..i])) {
          assert upto[..i] == actions[..i];
        }
        WithinDeposits(k, controls, upto, n, user, asset);
      }
    }
  }

  /** From the first grant on limits are in force, whatever the controls say. */
  lemma EnforcedFromGrant(k: World, controls: Controls, actions: seq<Action>, n: nat)
    requires n <= |actions| && Run(k, controls, actions[..n]).grants > 0
    ensures EnforcedFrom(k, controls, actions, n)
  {
    hide Run, Enforced;
    forall m | n <= m < |actions| ensures Enforced(Run(k, controls, actions[..m])) {
      assert actions[..m][..n] == actions[..n];
      GrantKeepsEnforcement(k, controls, actions[..m], n);
    }
  }

  /** So from the first grant on: within confirmed deposits at every moment, exactly when within them at the grant. */
  lemma WithinFromGrant(k: World, controls: Controls, actions: seq<Action>, n: nat, user: string, asset: string)
    requires n <= |actions| && Run(k, controls, actions[..n]).grants > 0
    ensures var db, start := Run(k, controls, actions), Run(k, controls, actions[..n]);
      Committed(db, user, asset) <= Max(Committed(start, user, asset), CreditedDeposits(k, db, user, asset))
    ensures AlwaysWithin(k, controls, actions, n, user, asset) <==>
      Committed(Run(k, controls, actions[..n]), user, asset)
        <= CreditedDeposits(k, Run(k, controls, actions[..n]), user, asset)
  {
    hide Run, Committed, CreditedDeposits, AlwaysWithin;
    EnforcedFromGrant(k, controls, actions, n);
    WithinDeposits(k, controls, actions, n, user, asset);
    WithinExactly(k, controls, actions, n, user, asset);
  }

  // A run in which limits come too late.

  /** One user's deposit is transferred to another, who requests a withdrawal of it; then limits are switched on. */
  function LateLimits(o: Observation, funding: string, to: string, input: WithdrawalInput, checks: Checks,
                      on: Controls): seq<Action> {
    [DoObserve(o, true, Some(funding)), DoTransfer(o.user, funding, to, o.asset, o.amount, checks),
     DoRequest(input, checks),
     DoControls(on)]
  }

  predicate AllChecked(checks: Checks) {
    checks.asset && checks.customer && checks.account
  }

  lemma DepositArrives(k: World, controls: Controls, o: Observation, funding: string)
    requires !o.failed && o.confirmations >= o.required && o.amount > 0 && k.owner(funding) == Some(o.user)
    ensures var db := Step(k, NewDB(controls), DoObserve(o, true, Some(funding)));
      && db.controls == controls && db.grants == 0 && db.withdrawals == []
      && db.deposits == [Upserted(None, o).(status := Credited, risk := RiskApproved)]
      && db.journals
        == [Journal(DepositCredit(0), Move(o.asset, o.amount, k.clearing(o.asset), Available, funding, Available))]
  {
  }

  lemma FirstBalance(j: Journal, account: string, asset: string)
    ensures Balance([j], account, asset, Available) == Effect(j.postings, account, asset, Available)
  {
    BalanceSnoc([], j, account, asset, Available);
    assert [] + [j] == [j];
  }

  lemma TransferArrives(k: World, db: DB, user: string, from: string, to: string, asset: string, amount: nat,
                        checks: Checks)
    requires WorldOk(k) && AllChecked(checks) && amount > 0 && k.owner(from) == Some(user) && k.owner(to).Some?
      && from != to
    requires db.journals
      == [Journal(DepositCredit(0), Move(asset, amount, k.clearing(asset), Available, from, Available))]
    ensures var db' := Step(k, db, DoTransfer(user, from, to, asset, amount, checks));
      && db' == db.(journals := db'.journals) && Balance(db'.journals, to, asset, Available) == amount
  {
    hide Balance, Effect, Move;
    var j, t := db.journals[0], Journal(InternalTransfer, Move(asset, amount, from, Available, to, Available));
    FirstBalance(j, from, asset);
    FirstBalance(j, to, asset);
    MoveEffect(asset, amount, k.clearing(asset), Available, from, Available, from, asset, Available);
    MoveEffect(asset, amount, k.clearing(asset), Available, from, Available, to, asset, Available);
    BalanceSnoc([j], t, to, asset, Available);
    MoveEffect(asset, amount, from, Available, to, Available, to, asset, Available);
  }

  lemma RequestArrives(k: World, db: DB, input: WithdrawalInput, checks: Checks)
    requires !Enforced(db) && db.withdrawals == [] && db.controls.withdrawalsEnabled && AllChecked(checks)
    requires input.amount > 0 && input.key != "" && k.owner(input.account) == Some(input.user)
    requires Balance(db.journals, input.account, input.asset, Available) >= input.amount
    ensures var db' := Step(k, db, DoRequest(input, checks));
      && db'.withdrawals == [NewWithdrawal(db, input)] && db'.deposits == db.deposits
  {
    hide Balance;
  }

  lemma OneCommitted(db: DB, w: Withdrawal)
    requires db.withdrawals == [w] && !Terminal(w.status)
    ensures Committed(db, w.user, w.asset) == w.amount
  {
    assert CommittedWeights(db, w.user, w.asset) == [w.amount];
    SumSnoc([], w.amount);
    assert [] + [w.amount as int] == [w.amount as int];
  }

  lemma NoneCredited(k: World, db: DB, user: string, asset: string)
    requires |db.deposits| == 1 && db.deposits[0].user != user
    ensures CreditedDeposits(k, db, user, asset) == 0
  {
    assert CreditedWeights(k, db, user, asset) == [0];
    SumSnoc([], 0);
    assert [] + [0] == [0];
  }

  /** Limits switched on after such a request find more committed than deposited. */
  lemma LateLimitsExceed(k: World, controls: Controls, o: Observation, funding: string, input: WithdrawalInput,
                         checks: Checks, on: Controls)
    requires WorldOk(k) && controls.withdrawalsEnabled && !controls.limitsReady && !controls.issuing && on.limitsReady
    requires !o.failed && o.confirmations >= o.required && o.amount > 0 && k.owner(funding) == Some(o.user)
    requires AllChecked(checks) && input.user != o.user && k.owner(input.account) == Some(input.user)
    requires input.asset == o.asset && input.amount == o.amount && input.key != ""
    ensures var db := Run(k, controls, LateLimits(o, funding, input.account, input, checks, on));
      && Enforced(db)
      && Committed(db, input.user, input.asset) == o.amount > CreditedDeposits(k, db, input.user, input.asset) == 0
  {
    hide Step, Balance, Committed, CreditedDeposits, Move;
    var all := LateLimits(o, funding, input.account, input, checks, on);
    assert all[..0] == [] && all[..4] == all;
    RunStep(k, controls, all, 0);
    RunStep(k, controls, all, 1);
    RunStep(k, controls, all, 2);
    RunStep(k, controls, all, 3);
    DepositArrives(k, controls, o, funding);
    TransferArrives(k, Run(k, controls, all[..1]), o.user, funding, input.account, o.asset, o.amount, checks);
    RequestArrives(k, Run(k, controls, all[..2]), input, checks);
    SwitchOn(k, Run(k, controls, all[..3]), on);
    var db := Run(k, controls, all);
    OneCommitted(db, db.withdrawals[0]);
    NoneCredited(k, db, input.user, input.asset);
  }

  lemma SwitchOn(k: World, db: DB, on: Controls)
    ensures Step(k, db, DoControls(on)) == db.(controls := on)
  {
  }
}
