/** Single-row changes that keep the tables consistent with the ledger. */
module MoneyRows {
  import opened Options
  import opened Ledger
  import opened Money
  import opened MoneyLaws

  lemma AddWithdrawalOk(k: World, db: DB, db': DB, w: Withdrawal)
    requires WithdrawalsOk(k, db) && WithdrawalOk(k, w) && !Terminal(w.status) && w.providerTx == ""
    requires forall i | 0 <= i < |db.withdrawals| :: db.withdrawals[i].key != w.key
    requires db'.withdrawals == db.withdrawals + [w]
    requires db'.journals
      == db.journals + [Journal(WithdrawalHold(|db.withdrawals|), HoldPostings(w.account, w.asset, w.amount))]
    ensures WithdrawalsOk(k, db')
  {
    hide CountOf, WithdrawalOk, HoldPostings;
    var n := |db.withdrawals|;
    var j := Journal(WithdrawalHold(n), HoldPostings(w.account, w.asset, w.amount));
    forall i: nat ensures i <= n ==> WithdrawalPosted(db'.journals, i, db'.withdrawals[i])
                  ensures i > n ==> WithdrawalUnposted(db'.journals, i) {
      StillPosted(db.journals, j, i);
      if i < n {
        KeepsHold(db.journals, j, i, db.withdrawals[i]);
      } else {
        assert WithdrawalUnposted(db.journals, i);
        assert db'.journals[|db.journals|] == j;
      }
    }
  }

  lemma KeepsHold(journals: seq<Journal>, j: Journal, id: nat, w: Withdrawal)
    requires WithdrawalPosted(journals, id, w)
    ensures exists i ::
      0 <= i < |journals + [j]|
      && (journals + [j])[i] == Journal(WithdrawalHold(id), HoldPostings(w.account, w.asset, w.amount))
  {
    hide CountOf, HoldPostings;
    var h :| 0 <= h < |journals|
      && journals[h] == Journal(WithdrawalHold(id), HoldPostings(w.account, w.asset, w.amount));
    assert (journals + [j])[h] == journals[h];
  }

  /** The row keeps its identity: owner, amount and idempotency key. */
  predicate SameWithdrawal(w: Withdrawal, w': Withdrawal) {
    w'.user == w.user && w'.account == w.account && w'.asset == w.asset && w'.amount == w.amount && w'.key == w.key
    && w'.destination == w.destination
  }

  function EndSource(id: nat, s: WithdrawalStatus): Source
    requires Terminal(s)
  {
    if s.Completed? then WithdrawalSettlement(id) else if s.Failed? then WithdrawalRelease(id) else WithdrawalCancel(id)
  }

  /** A withdrawal ends, with one journal that undoes its hold. */
  lemma EndWithdrawalOk(k: World, db: DB, db': DB, id: nat, w: Withdrawal, j: Journal)
    requires WithdrawalsOk(k, db) && id < |db.withdrawals| && !Terminal(db.withdrawals[id].status)
    requires WithdrawalOk(k, w) && SameWithdrawal(db.withdrawals[id], w)
      && w.providerTx == db.withdrawals[id].providerTx
    requires Terminal(w.status) && j.source == EndSource(id, w.status)
    requires db'.withdrawals == db.withdrawals[id := w] && db'.journals == db.journals + [j]
    ensures WithdrawalsOk(k, db')
  {
    hide CountOf, WithdrawalOk, HoldPostings;
    forall i: nat ensures i < |db.withdrawals| ==> WithdrawalPosted(db'.journals, i, db'.withdrawals[i])
                  ensures i >= |db.withdrawals| ==> WithdrawalUnposted(db'.journals, i) {
      StillPosted(db.journals, j, i);
      if i < |db.withdrawals| {
        KeepsHold(db.journals, j, i, db.withdrawals[i]);
      } else {
        assert WithdrawalUnposted(db.journals, i);
      }
    }
  }

  /** A withdrawal changes without ending, and without a journal. */
  lemma SetWithdrawalOk(k: World, db: DB, db': DB, id: nat, w: Withdrawal)
    requires WithdrawalsOk(k, db) && id < |db.withdrawals| && WithdrawalOk(k, w)
      && SameWithdrawal(db.withdrawals[id], w)
    requires !Terminal(db.withdrawals[id].status) && !Terminal(w.status)
    requires w.providerTx == db.withdrawals[id].providerTx || forall i | 0 <= i < |db.withdrawals| ::
      db.withdrawals[i].providerTx != w.providerTx
    requires db'.withdrawals == db.withdrawals[id := w] && db'.journals == db.journals
    ensures WithdrawalsOk(k, db')
  {
    hide CountOf, WithdrawalOk, HoldPostings;
    forall i: nat ensures i < |db.withdrawals| ==> WithdrawalPosted(db'.journals, i, db'.withdrawals[i])
                  ensures i >= |db.withdrawals| ==> WithdrawalUnposted(db'.journals, i) {
      if i >= |db.withdrawals| {
        assert WithdrawalUnposted(db.journals, i);
      }
    }
  }

  lemma AddTradeOk(k: World, db: DB, db': DB, t: P2PTrade, j: Journal)
    requires TradesOk(k, db) && TradeOk(k, t) && t.status.Open? && j.source == Escrow(|db.trades|)
    requires db'.trades == db.trades + [t] && db'.journals == db.journals + [j]
    ensures TradesOk(k, db')
  {
    hide CountOf, TradeOk;
    forall i: nat ensures i <= |db.trades| ==> TradePosted(db'.journals, i, db'.trades[i])
                  ensures i > |db.trades| ==> TradeUnposted(db'.journals, i) {
      StillPosted(db.journals, j, i);
      if i >= |db.trades| {
        assert TradeUnposted(db.journals, i);
      }
    }
  }

  lemma EndTradeOk(k: World, db: DB, db': DB, id: nat, t: P2PTrade, j: Journal)
    requires TradesOk(k, db) && id < |db.trades| && Escrowed(db.trades[id].status) && !Escrowed(t.status)
      && TradeOk(k, t)
    requires j.source == if t.status.TradeReleased? then EscrowRelease(id) else EscrowRefund(id)
    requires db'.trades == db.trades[id := t] && db'.journals == db.journals + [j]
    ensures TradesOk(k, db')
  {
    hide CountOf, TradeOk;
    forall i: nat ensures i < |db.trades| ==> TradePosted(db'.journals, i, db'.trades[i])
                  ensures i >= |db.trades| ==> TradeUnposted(db'.journals, i) {
      StillPosted(db.journals, j, i);
      if i >= |db.trades| {
        assert TradeUnposted(db.journals, i);
      }
    }
  }

  lemma SetTradeOk(k: World, db: DB, db': DB, id: nat, t: P2PTrade)
    requires TradesOk(k, db) && id < |db.trades| && Escrowed(db.trades[id].status) && Escrowed(t.status)
      && TradeOk(k, t)
    requires db'.trades == db.trades[id := t] && db'.journals == db.journals
    ensures TradesOk(k, db')
  {
  }

  /** The row keeps what its credit depends on. */
  predicate SameDeposit(d: Deposit, d': Deposit) {
    d'.tx == d.tx && d'.index == d.index && d'.user == d.user && d'.asset == d.asset && d'.amount == d.amount
      && d'.required == d.required
  }

  /** A deposit row is added or changed without being credited. */
  lemma SetDepositOk(k: World, db: DB, db': DB, id: nat, d: Deposit)
    requires DepositsOk(k, db) && id <= |db.deposits| && db'.journals == db.journals
    requires if id < |db.deposits| then db'.deposits == db.deposits[id := d] else db'.deposits == db.deposits + [d]
    requires id < |db.deposits| ==>
      SameDeposit(db.deposits[id], d) && (d.status.Credited? <==> db.deposits[id].status.Credited?)
    requires id == |db.deposits| ==> !d.status.Credited? && FindDeposit(db.deposits, d.tx, d.index) == -1
    ensures DepositsOk(k, db')
  {
  }

  lemma CreditJournal(k: World, id: nat, d: Deposit, account: string)
    requires WorldOk(k) && k.owner(account) == Some(d.user)
    ensures Credits(k,
        Journal(DepositCredit(id), Move(d.asset, d.amount, k.clearing(d.asset), Available, account, Available)), id, d)
  {
    var m := Move(d.asset, d.amount, k.clearing(d.asset), Available, account, Available);
    assert m[1..] == [Posting(account, d.asset, Available, true, d.amount)];
    assert Entered(k, m[1..][1..], Some(d.user), true) == 0;
    assert EnteredByAll(m[1..][1..], true) == 0 && EnteredByAll(m[1..][1..], false) == 0;
  }

  /** A deposit is credited, with one journal. */
  lemma CreditDepositOk(k: World, db: DB, db': DB, id: nat, d: Deposit, j: Journal)
    requires DepositsOk(k, db) && id < |db.deposits| && !db.deposits[id].status.Credited? && d.status.Credited?
    requires SameDeposit(db.deposits[id], d) && Credits(k, j, id, d)
    requires db'.deposits == db.deposits[id := d] && db'.journals == db.journals + [j]
    ensures DepositsOk(k, db')
  {
  }

}
