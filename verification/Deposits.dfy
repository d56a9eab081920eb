/** The fate of one deposit under reordered and repeated webhooks. */
module Deposits {
  import opened Options
  import opened Ledger
  import opened Money
  import opened MoneyLaws
  import opened MoneyRuns

  /** An observation that settles a deposit's fate. */
  predicate Decisive(o: Observation) {
    o.failed || o.confirmations >= o.required
  }

  /** Position of the first decisive observation, or -1. */
  function FirstDecisive(observations: seq<Observation>): (i: int)
    ensures -1 <= i < |observations|
    ensures i >= 0 ==> Decisive(observations[i])
    ensures forall j | 0 <= j < (if i >= 0 then i else |observations|) :: !Decisive(observations[j])
  {
    if observations == [] then -1
    else
      var init := observations[..|observations| - 1];
      var i := FirstDecisive(init);
      if i >= 0 then i
      else if Decisive(observations[|observations| - 1]) then |observations| - 1
      else -1
  }

  /** What the first decisive observation makes of the deposit. */
  function Fate(observations: seq<Observation>): Option<DepositStatus> {
    var i := FirstDecisive(observations);
    if observations == [] then None
    else if i == -1 then Some(Confirming)
    else if observations[i].failed then Some(Reorged)
    else Some(Credited)
  }

  lemma FateSnoc(observations: seq<Observation>, o: Observation)
    ensures Fate(observations + [o]) ==
      if Fate(observations) == Some(Reorged) || Fate(observations) == Some(Credited) then Fate(observations)
      else Some(if o.failed then Reorged else if o.confirmations >= o.required then Credited else Confirming)
  {
  }

  predicate About(a: Action, tx: string, index: string) {
    a.DoObserve? && a.observation.tx == tx && a.observation.index == index
  }

  /** The observation's transaction commits. */
  ghost predicate Commits(k: World, db: DB, a: Action)
    requires a.DoObserve?
  {
    ObserveDeposit(k, db, a.observation, a.matched, a.funding).1.Done?
  }

  /** The committed observations of one chain output, in the order they arrived. */
  ghost function Seen(k: World, controls: Controls, actions: seq<Action>, tx: string, index: string): seq<Observation> {
    if actions == [] then []
    else
      var before, a := actions[..|actions| - 1], actions[|actions| - 1];
      Seen(k, controls, before, tx, index)
      + if About(a, tx, index) && Commits(k, Run(k, controls, before), a) then [a.observation] else []
  }

  /** The deposit the action would flag or reject. */
  predicate Holds(a: Action, id: int) {
    (a.DoFlag? || a.DoReject?) && a.id == id
  }

  /** The risk status is left alone. */
  ghost predicate Unflagged(k: World, controls: Controls, actions: seq<Action>, tx: string, index: string) {
    forall n | 0 <= n < |actions| :: !Holds(actions[n], FindDeposit(Run(k, controls, actions[..n]).deposits, tx, index))
  }

  /** The deposit's row, if there is one. */
  function RowOf(db: DB, tx: string, index: string): Option<Deposit> {
    var i := FindDeposit(db.deposits, tx, index);
    if i >= 0 then Some(db.deposits[i]) else None
  }

  function StatusOf(row: Option<Deposit>): Option<DepositStatus> {
    match row
    case None => None
    case Some(d) => Some(d.status)
  }

  /** A row nobody flagged: it waits for confirmations, or its fate is fixed. */
  predicate Observed(row: Option<Deposit>) {
    match row
    case None => true
    case Some(d) => (d.status.Confirming? && d.risk.NotStarted?) || d.status.Credited? || d.status.Reorged?
  }

  lemma AppendFind(deposits: seq<Deposit>, d: Deposit, tx: string, index: string)
    ensures FindDeposit(deposits + [d], tx, index) ==
      if d.tx == tx && d.index == index then |deposits| else FindDeposit(deposits, tx, index)
  {
  }

  lemma {:induction false} UpdateFind(deposits: seq<Deposit>, i: nat, d: Deposit, tx: string, index: string)
    requires i < |deposits| && d.tx == deposits[i].tx && d.index == deposits[i].index
    ensures FindDeposit(deposits[i := d], tx, index) == FindDeposit(deposits, tx, index)
  {
    var last := |deposits| - 1;
    if i < last {
      UpdateFind(deposits[..last], i, d, tx, index);
      assert deposits[i := d][..last] == deposits[..last][i := d];
    } else {
      assert deposits[i := d][..last] == deposits[..last];
    }
  }

  /** An observation decides its row as the fate says, or does not commit and changes nothing. */
  lemma ObserveDecides(k: World, db: DB, a: Action, tx: string, index: string)
    requires About(a, tx, index) && Observed(RowOf(db, tx, index))
    ensures var row, row' := RowOf(db, tx, index), RowOf(Step(k, db, a), tx, index);
      if !Commits(k, db, a) then row' == row
      else
        && Observed(row') && row'.Some?
        && row'.value.status == if row.Some? && Absorbing(row.value.status) then row.value.status
           else if a.observation.failed then Reorged
           else if a.observation.confirmations >= a.observation.required then Credited else Confirming
  {
    hide FindDeposit;
    var o := a.observation;
    var i := FindDeposit(db.deposits, tx, index);
    var d := Upserted(RowOf(db, tx, index), o);
    var paid := d.(status := Credited, risk := RiskApproved);
    if i >= 0 {
      UpdateFind(db.deposits, i, d, tx, index);
      UpdateFind(db.deposits[i := d], i, paid, tx, index);
    } else {
      AppendFind(db.deposits, d, tx, index);
      UpdateFind(db.deposits + [d], |db.deposits|, paid, tx, index);
    }
  }

  /** Any other action leaves an unflagged row alone, a manual credit of it included. */
  lemma OthersLeave(k: World, db: DB, a: Action, tx: string, index: string)
    requires !About(a, tx, index) && Observed(RowOf(db, tx, index)) && !Holds(a, FindDeposit(db.deposits, tx, index))
    ensures RowOf(Step(k, db, a), tx, index) == RowOf(db, tx, index)
  {
    hide Step, RowOf, FindDeposit;
    if a.DoObserve? {
      ObserveLeaves(k, db, a, tx, index);
    } else if a.DoCredit? || a.DoFlag? || a.DoReject? {
      ReviewLeaves(k, db, a, tx, index);
    } else {
      SameDeposits(k, db, a);
      SameRow(db, Step(k, db, a), tx, index);
    }
  }

  lemma ObserveLeaves(k: World, db: DB, a: Action, tx: string, index: string)
    requires a.DoObserve? && !About(a, tx, index)
    ensures RowOf(Step(k, db, a), tx, index) == RowOf(db, tx, index)
  {
    hide FindDeposit;
    var o := a.observation;
    var i := FindDeposit(db.deposits, o.tx, o.index);
    var d := Upserted(RowOf(db, o.tx, o.index), o);
    var paid := d.(status := Credited, risk := RiskApproved);
    if i >= 0 {
      UpdateFind(db.deposits, i, d, tx, index);
      UpdateFind(db.deposits[i := d], i, paid, tx, index);
    } else {
      AppendFind(db.deposits, d, tx, index);
      UpdateFind(db.deposits + [d], |db.deposits|, paid, tx, index);
    }
  }

  lemma ReviewLeaves(k: World, db: DB, a: Action, tx: string, index: string)
    requires a.DoCredit? || a.DoFlag? || a.DoReject?
    requires Observed(RowOf(db, tx, index)) && !Holds(a, FindDeposit(db.deposits, tx, index))
    ensures RowOf(Step(k, db, a), tx, index) == RowOf(db, tx, index)
  {
    hide FindDeposit;
    if a.id < |db.deposits| {
      var d := db.deposits[a.id];
      UpdateFind(db.deposits, a.id, d.(status := Credited, risk := RiskApproved), tx, index);
      UpdateFind(db.deposits, a.id, d.(status := Rejected, risk := RiskRejected), tx, index);
      if a.DoFlag? {
        UpdateFind(db.deposits, a.id, d.(risk := a.risk), tx, index);
      }
    }
  }

  lemma SameDeposits(k: World, db: DB, a: Action)
    requires !a.DoObserve? && !a.DoCredit? && !a.DoFlag? && !a.DoReject?
    ensures Step(k, db, a).deposits == db.deposits
  {
    hide Balance, Entitled, HoldStands, HasCapacity, FindKey, FindTx, TradingAllowed;
  }

  lemma SameRow(db: DB, db': DB, tx: string, index: string)
    requires db'.deposits == db.deposits
    ensures RowOf(db', tx, index) == RowOf(db, tx, index)
  {
  }

  /**
   Over any run, whatever else happens to the deposit, a manual credit
   included: unless it is flagged or rejected, the first decisive observation
   that commits, and nothing after it, fixes whether it is credited or reorged.
   */
  lemma {:induction false} FirstDecisiveFixes(k: World, controls: Controls, actions: seq<Action>, tx: string,
                                              index: string)
    requires Unflagged(k, controls, actions, tx, index)
    ensures var row := RowOf(Run(k, controls, actions), tx, index);
      StatusOf(row) == Fate(Seen(k, controls, actions, tx, index)) && Observed(row)
  {
    hide Step, Fate, FindDeposit, Commits, Observed, RowOf, Absorbing;
    if actions == [] {
      NothingSeen(controls, tx, index);
    } else {
      var shorter, a := actions[..|actions| - 1], actions[|actions| - 1];
      Shorter(k, controls, actions, tx, index);
      FirstDecisiveFixes(k, controls, shorter, tx, index);
      var db, seen := Run(k, controls, shorter), Seen(k, controls, shorter, tx, index);
      if About(a, tx, index) {
        ObserveDecides(k, db, a, tx, index);
        FateSnoc(seen, a.observation);
        FinalFates(RowOf(db, tx, index));
      } else {
        OthersLeave(k, db, a, tx, index);
      }
      assert seen + [] == seen;
    }
  }

  lemma FinalFates(row: Option<Deposit>)
    requires Observed(row)
    ensures (row.Some? && Absorbing(row.value.status)) <==>
      StatusOf(row) == Some(Reorged) || StatusOf(row) == Some(Credited)
  {
  }

  lemma NothingSeen(controls: Controls, tx: string, index: string)
    ensures RowOf(NewDB(controls), tx, index) == None && Fate([]) == None && Observed(None)
  {
  }

  lemma Shorter(k: World, controls: Controls, actions: seq<Action>, tx: string, index: string)
    requires actions != [] && Unflagged(k, controls, actions, tx, index)
    ensures Unflagged(k, controls, actions[..|actions| - 1], tx, index)
    ensures !Holds(actions[|actions| - 1], FindDeposit(Run(k, controls, actions[..|actions| - 1]).deposits, tx, index))
  {
    hide FindDeposit, Run, Holds;
    var shorter := actions[..|actions| - 1];
    forall n | 0 <= n < |shorter|
      ensures !Holds(shorter[n], FindDeposit(Run(k, controls, shorter[..n]).deposits, tx, index))
    {
      assert shorter[..n] == actions[..n];
    }
  }

  /** A deposit is credited by at most one journal, whichever path took it there, and only for its own amount. */
  lemma CreditedAtMostOnce(k: World, controls: Controls, actions: seq<Action>, id: nat)
    requires WorldOk(k) && id < |Run(k, controls, actions).deposits|
    ensures var db := Run(k, controls, actions);
      && CountOf(db.journals, DepositCredit(id)) == Flag(db.deposits[id].status.Credited?)
      && (db.deposits[id].status.Credited? ==>
            exists i :: 0 <= i < |db.journals| && Credits(k, db.journals[i], id, db.deposits[id]))
  {
    hide Run, CountOf, LedgerOk, HoldsOk, WithdrawalsOk, TradesOk;
    RunOk(k, controls, actions);
    assert DepositPosted(k, Run(k, controls, actions).journals, id, Run(k, controls, actions).deposits[id]);
  }

  /** Credited, reorged and rejected are final. */
  lemma StatusAbsorbs(k: World, db: DB, a: Action, id: nat)
    requires id < |db.deposits| && Absorbing(db.deposits[id].status)
    ensures id < |Step(k, db, a).deposits| && Step(k, db, a).deposits[id].status == db.deposits[id].status
  {
    hide Step;
    if a.DoObserve? || a.DoCredit? || a.DoFlag? || a.DoReject? {
      ReviewAbsorbs(k, db, a, id);
    } else {
      SameDeposits(k, db, a);
    }
  }

  lemma ReviewAbsorbs(k: World, db: DB, a: Action, id: nat)
    requires a.DoObserve? || a.DoCredit? || a.DoFlag? || a.DoReject?
    requires id < |db.deposits| && Absorbing(db.deposits[id].status)
    ensures id < |Step(k, db, a).deposits| && Step(k, db, a).deposits[id].status == db.deposits[id].status
  {
    hide FindDeposit, Move;
  }

  // The manual path.

  /** A flagged deposit is never credited by an observation. */
  lemma FlagStopsAutomatic(k: World, db: DB, a: Action, id: nat)
    requires a.DoObserve? && id < |db.deposits| && !db.deposits[id].risk.NotStarted?
    ensures var db' := Step(k, db, a);
      id < |db'.deposits| && (db'.deposits[id].status.Credited? <==> db.deposits[id].status.Credited?)
  {
    hide FindDeposit;
  }

  /** Observed, flagged, observed with enough confirmations, credited by hand, observed again. */
  function Review(o: Observation, confirmed: Observation, checks: Checks, funding: Option<string>): seq<Action> {
    [DoObserve(o, true, funding), DoFlag(0, RiskPending), DoObserve(confirmed, true, funding),
     DoCredit(0, checks, funding),
     DoObserve(confirmed, true, funding)]
  }

  predicate FirstIs(db: DB, status: DepositStatus) {
    |db.deposits| > 0 && db.deposits[0].status == status
  }

  lemma FirstSeen(k: World, controls: Controls, o: Observation, funding: Option<string>)
    requires !o.failed && o.confirmations < o.required
    ensures Step(k, NewDB(controls), DoObserve(o, true, funding)).deposits == [Upserted(None, o)]
  {
  }

  lemma SeenAgain(k: World, db: DB, o: Observation, d: Deposit, funding: Option<string>)
    requires db.deposits == [d] && d.tx == o.tx && d.index == o.index && d.risk.RiskPending?
    ensures Step(k, db, DoObserve(o, true, funding)).deposits == [Upserted(Some(d), o)]
  {
  }

  lemma FlaggedWaits(k: World, controls: Controls, o: Observation, confirmed: Observation, funding: Option<string>)
    requires !o.failed && o.confirmations < o.required && confirmed == o.(confirmations := o.required)
    ensures var db1 := Step(k, NewDB(controls), DoObserve(o, true, funding));
      Step(k, Step(k, db1, DoFlag(0, RiskPending)), DoObserve(confirmed, true, funding)).deposits
      == [Upserted(Some(Upserted(None, o).(risk := RiskPending)), confirmed)]
  {
    hide ObserveDeposit;
    var db1 := Step(k, NewDB(controls), DoObserve(o, true, funding));
    FirstSeen(k, controls, o, funding);
    var db2 := Step(k, db1, DoFlag(0, RiskPending));
    assert db2.deposits == [Upserted(None, o).(risk := RiskPending)];
    SeenAgain(k, db2, confirmed, db2.deposits[0], funding);
  }

  lemma ReviewerCredits(k: World, db: DB, checks: Checks, funding: Option<string>)
    requires FirstIs(db, PendingReview) && db.deposits[0].risk.RiskPending? && db.deposits[0].amount > 0
    requires checks.role && checks.customer && funding.Some? && k.owner(funding.value) == Some(db.deposits[0].user)
    ensures FirstIs(Step(k, db, DoCredit(0, checks, funding)), Credited)
  {
  }

  /** The manual path does credit, once, and the automatic path then finds nothing to do. */
  lemma ManualCredits(k: World, controls: Controls, o: Observation, checks: Checks, funding: Option<string>)
    requires WorldOk(k) && !o.failed && o.confirmations < o.required && o.amount > 0
    requires checks.role && checks.customer && funding.Some? && k.owner(funding.value) == Some(o.user)
    ensures var actions := Review(o, o.(confirmations := o.required), checks, funding);
      && FirstIs(Run(k, controls, actions[..3]), PendingReview) && FirstIs(Run(k, controls, actions[..4]), Credited)
      && FirstIs(Run(k, controls, actions), Credited)
      && CountOf(Run(k, controls, actions).journals, DepositCredit(0)) == 1
  {
    hide Step, CountOf;
    var confirmed := o.(confirmations := o.required);
    var all := Review(o, confirmed, checks, funding);
    assert all[..0] == [] && all[..5] == all;
    RunStep(k, controls, all, 0);
    RunStep(k, controls, all, 1);
    RunStep(k, controls, all, 2);
    RunStep(k, controls, all, 3);
    RunStep(k, controls, all, 4);
    FlaggedWaits(k, controls, o, confirmed, funding);
    ReviewerCredits(k, Run(k, controls, all[..3]), checks, funding);
    StatusAbsorbs(k, Run(k, controls, all[..4]), all[4], 0);
    CreditedAtMostOnce(k, controls, all, 0);
  }
}
