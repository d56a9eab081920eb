/** A payout that is paid and reported between another worker's look at the vault and its claim. */
module VaultRace {
  import opened Options
  import opened Sums
  import opened Ledger
  import opened Money
  import opened MoneyLaws
  import opened MoneyRuns
  import opened Payouts
  import opened PayoutLaws
  import opened Vault
  import Entitlement

  /** Two withdrawals of one user from a vault that holds enough for one of them. */
  datatype Setting = Setting(
    k: World, controls: Controls, deposit: Observation, first: WithdrawalInput, second: WithdrawalInput,
    held: nat, provider: string, tx: string, checks: Checks)
  {
    function VaultName(): string {
      k.vault(first.user)
    }

    function Coin(): string {
      k.custodyAsset(first.asset)
    }
  }

  ghost predicate SettingOk(x: Setting) {
    && WorldOk(x.k) && x.controls.withdrawalsEnabled && x.controls.automatic && !x.controls.limitsReady
    && !x.controls.issuing
    && x.second == x.first.(key := x.second.key) && x.second.key != x.first.key && x.first.key != ""
    && x.second.key != ""
    && 0 < x.first.amount <= x.held < 2 * x.first.amount && x.k.owner(x.first.account) == Some(x.first.user)
    && x.deposit.user == x.first.user && x.deposit.asset == x.first.asset && x.deposit.amount == 2 * x.first.amount
    && !x.deposit.failed && x.deposit.confirmations >= x.deposit.required
    && x.checks == Checks(true, true, true, true, true, true, true) && x.provider != "" && x.tx != ""
  }

  /**
   Worker 0 reserves and worker 1 looks; the first payout is taken, paid and
   reported; then worker 1 claims on what it saw.
   */
  function Events(x: Setting): (events: seq<Event>)
    ensures |events| == 16
  {
    [Elsewhere(DoObserve(x.deposit, true, Some(x.first.account))),
     Elsewhere(DoRequest(x.first, x.checks)), Elsewhere(DoRequest(x.second, x.checks)),
     Fund(x.VaultName(), x.Coin(), x.held),
     Pick(0, 0), Look(0, x.Coin()), Estimate(0, 0, 0), Claim(0, x.provider, x.checks),
     Pick(1, 1), Look(1, x.Coin()), Estimate(1, 0, 0),
     Call(0, true, x.tx, true), Acknowledge(0), Pay(0, 0), Report(0, Finished),
     Claim(1, x.provider, x.checks)]
  }

  ghost function At(x: Setting, n: nat): System
    requires n <= 16
  {
    RunSystem(x.k, x.controls, 2, Events(x)[..n])
  }

  lemma StepAt(x: Setting, n: nat)
    requires n < 16
    ensures At(x, n + 1) == Next(x.k, At(x, n), Events(x)[n])
  {
    hide Next;
    assert Events(x)[..n + 1][..n] == Events(x)[..n];
  }

  // The rows.

  function Row(x: Setting, input: WithdrawalInput): Withdrawal {
    NewWithdrawal(NewDB(x.controls), input)
  }

  function Promise(x: Setting): Reservation {
    Reservation(x.VaultName(), x.Coin(), x.first.amount, x.Coin(), 0)
  }

  function Reserved(x: Setting, w: Withdrawal): Withdrawal {
    w.(dispatch := Some(x.provider), reservation := Some(Promise(x)))
  }

  function Ended(x: Setting): Withdrawal {
    Reserved(x, Row(x, x.first)).(status := Completed, providerTx := x.tx, terminal := Some(Consumed))
  }

  function ItemAt(x: Setting, id: nat): Item {
    Item(id, x.first.user, x.first.asset, x.VaultName(), x.Coin(), x.first.destination, x.first.amount)
  }

  const BLANK := Payout(0, "", Absent)

  ghost predicate Unlimited(x: Setting, s: System) {
    s.db.controls == x.controls && s.db.grants == 0
  }

  // Money comes in and is asked for twice.

  lemma DepositFirst(x: Setting)
    requires SettingOk(x)
    ensures var s := At(x, 1);
      && Unlimited(x, s) && s.db.withdrawals == [] && s.payouts == [] && s.flows == [] && s.workers == [Idle, Idle]
      && Balance(s.db.journals, x.first.account, x.first.asset, Available) == 2 * x.first.amount
  {
    hide Step, Balance, Effect, Move;
    StepAt(x, 0);
    assert At(x, 0) == Begin(x.controls, 2);
    var o, account := x.deposit, x.first.account;
    Entitlement.DepositArrives(x.k, x.controls, o, account);
    Entitlement.FirstBalance(At(x, 1).db.journals[0], account, o.asset);
    MoveEffect(o.asset, o.amount, x.k.clearing(o.asset), Available, account, Available, account, o.asset, Available);
  }

  /** A request with a new key is granted and its amount held. */
  lemma Granted(x: Setting, s: System, input: WithdrawalInput)
    requires SettingOk(x) && Unlimited(x, s) && (input == x.first || input == x.second)
    requires forall i | 0 <= i < |s.db.withdrawals| :: s.db.withdrawals[i].key != input.key
    requires |s.payouts| == |s.db.withdrawals|
    requires Balance(s.db.journals, input.account, input.asset, Available) >= input.amount
    ensures var t := Next(x.k, s, Elsewhere(DoRequest(input, x.checks)));
      && Unlimited(x, t) && t.flows == s.flows && t.workers == s.workers
      && t.db.withdrawals == s.db.withdrawals + [Row(x, input)] && t.payouts == s.payouts + [BLANK]
      && Balance(t.db.journals, input.account, input.asset, Available)
         == Balance(s.db.journals, input.account, input.asset, Available) - input.amount
  {
    hide Balance, Effect, Move, FindKey;
    var hold := Journal(WithdrawalHold(|s.db.withdrawals|), HoldPostings(input.account, input.asset, input.amount));
    BalanceSnoc(s.db.journals, hold, input.account, input.asset, Available);
    MoveEffect(input.asset, input.amount, input.account, Available, input.account, Held, input.account, input.asset,
               Available);
  }

  ghost predicate Asked(x: Setting, s: System) {
    && Unlimited(x, s) && s.db.withdrawals == [Row(x, x.first), Row(x, x.second)] && s.payouts == [BLANK, BLANK]
    && s.flows == [Flow(x.VaultName(), x.Coin(), x.held)] && s.workers == [Idle, Idle]
  }

  lemma AskedTwice(x: Setting)
    requires SettingOk(x)
    ensures Asked(x, At(x, 4))
  {
    hide Next, Balance, At;
    DepositFirst(x);
    StepAt(x, 1);
    Granted(x, At(x, 1), x.first);
    StepAt(x, 2);
    Granted(x, At(x, 2), x.second);
    StepAt(x, 3);
    Funded(x, At(x, 3));
  }

  lemma Funded(x: Setting, s: System)
    ensures Next(x.k, s, Events(x)[3]) == s.(flows := s.flows + [Flow(x.VaultName(), x.Coin(), x.held)])
  {
  }

  // Workers look and claim.

  function Seen(x: Setting): Sighting {
    Sighting(x.held, {})
  }

  function Prepared(x: Setting, id: nat): Worker {
    Ready(ItemAt(x, id), Some(Evidence(x.Coin(), x.held, x.held, 0, 0)), Seen(x), Seen(x))
  }

  /** Worker i takes up withdrawal i, looks at the vault before anything left it, and estimates. */
  lemma Prepares(x: Setting, s: System, i: nat)
    requires |s.workers| == |s.db.withdrawals| == 2 && i < 2 && s.workers[i].Idle?
    requires s.db.withdrawals[i].user == x.first.user && s.db.withdrawals[i].asset == x.first.asset
    requires s.db.withdrawals[i].destination == x.first.destination && s.db.withdrawals[i].amount == x.first.amount
    requires s.flows == [Flow(x.VaultName(), x.Coin(), x.held)] && s.payouts == [BLANK, BLANK]
    ensures Next(x.k, Next(x.k, Next(x.k, s, Pick(i, i)), Look(i, x.Coin())), Estimate(i, 0, 0))
         == s.(workers := s.workers[i := Prepared(x, i)])
  {
    assert VaultBalance(s.flows, x.VaultName(), x.Coin()) == x.held by {
      FlowSnoc([], s.flows[0], x.VaultName(), x.Coin());
      assert [] + [s.flows[0]] == s.flows;
    }
    assert PaidSet(s.payouts) == {};
  }

  /** A claim on a sighting the open reservations leave room in. */
  lemma Claims(x: Setting, s: System, i: nat)
    requires SettingOk(x) && Unlimited(x, s) && PayOk(x.k, s) && |s.workers| == |s.db.withdrawals| == 2 && i < 2
    requires s.workers[i] == Prepared(x, i)
    requires s.db.withdrawals[i] == Row(x, if i == 0 then x.first else x.second)
    requires OpenCapacity(s.db.withdrawals, x.VaultName(), x.Coin()) == 0
    ensures var t := Next(x.k, s, Claim(i, x.provider, x.checks));
      && Unlimited(x, t) && t.flows == s.flows && t.payouts == s.payouts
      && t.workers == s.workers[i := Claimed(ItemAt(x, i))]
      && t.db.withdrawals == s.db.withdrawals[i := Reserved(x, s.db.withdrawals[i])]
  {
    hide HoldStands, OpenCapacity, Committed, CreditedDeposits, RowsPay, WorkersOk, DistinctTx, Ok;
    HoldAlwaysStands(x.k, s.db, i);
  }

  lemma NothingOpen(withdrawals: seq<Withdrawal>, vault: string, coin: string)
    requires forall i | 0 <= i < |withdrawals| :: withdrawals[i].reservation.None? || withdrawals[i].terminal.Some?
    ensures OpenCapacity(withdrawals, vault, coin) == 0
  {
    ZeroRows(OpenWeights(withdrawals, vault, coin));
  }

  lemma FirstClaims(x: Setting)
    requires SettingOk(x)
    ensures var s := At(x, 8);
      && Unlimited(x, s) && s.db.withdrawals == [Reserved(x, Row(x, x.first)), Row(x, x.second)]
      && s.payouts == [BLANK, BLANK]
      && s.flows == [Flow(x.VaultName(), x.Coin(), x.held)] && s.workers == [Claimed(ItemAt(x, 0)), Idle]
  {
    hide Next, At, PayOk, OpenCapacity;
    AskedTwice(x);
    StepAt(x, 4);
    StepAt(x, 5);
    StepAt(x, 6);
    Prepares(x, At(x, 4), 0);
    ReachedOk(x, 7);
    NothingOpen(At(x, 7).db.withdrawals, x.VaultName(), x.Coin());
    StepAt(x, 7);
    Claims(x, At(x, 7), 0);
  }

  lemma ReachedOk(x: Setting, n: nat)
    requires SettingOk(x) && n <= 16
    ensures PayOk(x.k, At(x, n))
  {
    hide PayOk, RunSystem;
    RunPayOk(x.k, x.controls, 2, Events(x)[..n]);
  }

  lemma SecondLooks(x: Setting)
    requires SettingOk(x)
    ensures At(x, 11) == At(x, 8).(workers := [Claimed(ItemAt(x, 0)), Prepared(x, 1)])
  {
    hide Next, At;
    FirstClaims(x);
    StepAt(x, 8);
    StepAt(x, 9);
    StepAt(x, 10);
    Prepares(x, At(x, 8), 1);
  }

  // The first payout goes through.

  lemma Taken(x: Setting, s: System)
    requires SettingOk(x) && s.payouts == [BLANK, BLANK] && |s.workers| == 2 && s.workers[0] == Claimed(ItemAt(x, 0))
    ensures Next(x.k, s, Call(0, true, x.tx, true))
         == s.(payouts := [Payout(1, x.tx, PayoutState.Taken), BLANK], workers := s.workers[0 := Answered(0, x.tx)])
  {
  }

  lemma Submits(x: Setting, s: System)
    requires SettingOk(x) && |s.workers| == 2 && s.workers[0] == Answered(0, x.tx)
    requires s.db.withdrawals == [Reserved(x, Row(x, x.first)), Row(x, x.second)]
    ensures var row := Reserved(x, Row(x, x.first)).(status := Submitted, providerTx := x.tx);
      Next(x.k, s, Acknowledge(0))
      == s.(db := s.db.(withdrawals := [row, Row(x, x.second)]), workers := s.workers[0 := Idle])
  {
    hide FindTx;
  }

  lemma Paid(x: Setting, s: System)
    requires SettingOk(x) && s.payouts == [Payout(1, x.tx, PayoutState.Taken), BLANK]
    requires |s.db.withdrawals| == 2 && s.db.withdrawals[0].reservation == Some(Promise(x))
    ensures Next(x.k, s, Pay(0, 0))
         == s.(payouts := [Payout(1, x.tx, Settled), BLANK],
               flows := s.flows + [Flow(x.VaultName(), x.Coin(), 0 - x.first.amount), Flow(x.VaultName(), x.Coin(), 0)])
  {
  }

  lemma Reports(x: Setting, s: System)
    requires SettingOk(x) && s.payouts == [Payout(1, x.tx, Settled), BLANK]
    requires s.db.withdrawals
      == [Reserved(x, Row(x, x.first)).(status := Submitted, providerTx := x.tx), Row(x, x.second)]
    ensures var t := Next(x.k, s, Report(0, Finished));
      && t == s.(db := t.db) && t.db == s.db.(withdrawals := [Ended(x), Row(x, x.second)], journals := t.db.journals)
  {
    hide FindTx;
  }

  lemma FirstEnds(x: Setting)
    requires SettingOk(x)
    ensures var s := At(x, 15);
      && Unlimited(x, s) && s.db.withdrawals == [Ended(x), Row(x, x.second)]
      && s.payouts == [Payout(1, x.tx, Settled), BLANK] && s.workers == [Idle, Prepared(x, 1)]
      && s.flows == [Flow(x.VaultName(), x.Coin(), x.held), Flow(x.VaultName(), x.Coin(), 0 - x.first.amount),
                     Flow(x.VaultName(), x.Coin(), 0)]
  {
    hide Next, At;
    FirstClaims(x);
    SecondLooks(x);
    StepAt(x, 11);
    Taken(x, At(x, 11));
    StepAt(x, 12);
    Submits(x, At(x, 12));
    StepAt(x, 13);
    Paid(x, At(x, 13));
    StepAt(x, 14);
    Reports(x, At(x, 14));
  }

  // The second claim passes its check.

  lemma Balances(x: Setting)
    ensures var v, c := x.VaultName(), x.Coin();
      VaultBalance([Flow(v, c, x.held), Flow(v, c, 0 - x.first.amount), Flow(v, c, 0)], v, c) == x.held - x.first.amount
  {
    hide VaultBalance;
    var v, c := x.VaultName(), x.Coin();
    var a, b, d := Flow(v, c, x.held), Flow(v, c, 0 - x.first.amount), Flow(v, c, 0);
    FlowSnoc([], a, v, c);
    FlowSnoc([a], b, v, c);
    FlowSnoc([a, b], d, v, c);
    assert [] + [a] == [a] && [a] + [b] == [a, b] && [a, b] + [d] == [a, b, d];
    assert VaultBalance([], v, c) == 0 by {
      NoFlows(v, c);
    }
  }

  lemma NoFlows(vault: string, coin: string)
    ensures VaultBalance([], vault, coin) == 0
  {
  }

  lemma OwedOnce(x: Setting, s: System)
    requires s.db.withdrawals == [Ended(x), Reserved(x, Row(x, x.second))]
    requires s.payouts == [Payout(1, x.tx, Settled), BLANK]
    ensures Owed(s, x.VaultName(), x.Coin()) == x.first.amount
  {
    var weights := OwedWeights(s.db.withdrawals, s.payouts, x.VaultName(), x.Coin());
    assert weights == [0, x.first.amount as int];
    SumSnoc([0], x.first.amount);
    SumSnoc([], 0);
    assert [] + [0] == [0] && [0] + [x.first.amount as int] == weights;
  }

  /**
   The capacity check compares an older look at the vault with the reservations
   of now. A payout that was paid and struck off between the two is counted
   twice over, and more is owed than the vault holds.
   */
  lemma RaceUncovers(x: Setting)
    requires SettingOk(x)
    ensures var s := RunSystem(x.k, x.controls, 2, Events(x));
      && |s.db.withdrawals| == |s.payouts|
      && Owed(s, x.VaultName(), x.Coin()) == x.first.amount
      && VaultBalance(s.flows, x.VaultName(), x.Coin()) == x.held - x.first.amount < x.first.amount
    ensures !Careful(At(x, 15), Events(x)[15])
  {
    hide Next, PayOk, OpenCapacity, RunSystem, VaultBalance, Owed;
    FirstEnds(x);
    ReachedOk(x, 15);
    NothingOpen(At(x, 15).db.withdrawals, x.VaultName(), x.Coin());
    StepAt(x, 15);
    Claims(x, At(x, 15), 1);
    assert Events(x)[..16] == Events(x);
    OwedOnce(x, At(x, 16));
    Balances(x);
    assert At(x, 15).payouts[0].state.Settled?;
  }

  /** Such a setting exists. */
  lemma RaceExists() returns (x: Setting)
    ensures SettingOk(x)
  {
    var k := World(account => if account == "account" then Some("user") else None,
                   _ => "clearing", _ => "treasury", _ => "fees", _ => "issuance", _ => "vault", asset => asset);
    var input := WithdrawalInput("user", "account", "coin", "there", 60, "a");
    x := Setting(k, Controls(true, true, false, false), Observation("d", "0", "user", "coin", 1, 120, 1, false, "h"),
                 input, input.(key := "b"), 100, "provider", "t", Checks(true, true, true, true, true, true, true));
  }
}
