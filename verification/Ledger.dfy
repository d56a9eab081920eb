/** Sums over rows of a table. */
module Sums {
  function Sum(s: seq<int>): int {
    if s == [] then 0 else Sum(s[..|s| - 1]) + s[|s| - 1]
  }

  lemma SumSnoc(s: seq<int>, x: int)
    ensures Sum(s + [x]) == Sum(s) + x
  {
  }

  lemma {:induction false} SumConcat(s: seq<int>, t: seq<int>)
    ensures Sum(s + t) == Sum(s) + Sum(t)
  {
    if t == [] {
      assert s + t == s;
    } else {
      SumConcat(s, t[..|t| - 1]);
      assert (s + t)[..|s + t| - 1] == s + t[..|t| - 1];
    }
  }

  lemma {:induction false} SumUpdate(s: seq<int>, i: nat, x: int)
    requires i < |s|
    ensures Sum(s[i := x]) == Sum(s) - s[i] + x
  {
    if i == |s| - 1 {
      assert s[i := x][..i] == s[..i];
    } else {
      SumUpdate(s[..|s| - 1], i, x);
      assert s[i := x][..|s| - 1] == s[..|s| - 1][i := x];
    }
  }

  lemma {:induction false} SumLeast(s: seq<int>, i: nat)
    requires i < |s| && forall k | 0 <= k < |s| :: s[k] >= 0
    ensures 0 <= s[i] <= Sum(s)
  {
    SumNonNegative(s[..|s| - 1]);
    if i < |s| - 1 {
      SumLeast(s[..|s| - 1], i);
    }
  }

  lemma {:induction false} SumNonNegative(s: seq<int>)
    requires forall k | 0 <= k < |s| :: s[k] >= 0
    ensures Sum(s) >= 0
  {
    if s != [] {
      SumNonNegative(s[..|s| - 1]);
    }
  }

  /** A table that is nowhere larger has no larger sum. */
  lemma {:induction false} SumMonotone(s: seq<int>, t: seq<int>)
    requires |s| == |t| && forall k | 0 <= k < |s| :: s[k] <= t[k]
    ensures Sum(s) <= Sum(t)
  {
    if s != [] {
      SumMonotone(s[..|s| - 1], t[..|t| - 1]);
    }
  }

  /** A table that splits into two, row by row. */
  lemma {:induction false} SumSplit(s: seq<int>, t: seq<int>, u: seq<int>)
    requires |s| == |t| == |u| && forall k | 0 <= k < |s| :: s[k] + t[k] <= u[k]
    ensures Sum(s) + Sum(t) <= Sum(u)
  {
    if s != [] {
      SumSplit(s[..|s| - 1], t[..|t| - 1], u[..|u| - 1]);
    }
  }
}

/** The double-entry ledger: an append-only list of journals; balances are sums over postings. */
module Ledger {
  datatype Bucket = Available | Held

  datatype Posting = Posting(account: string, asset: string, bucket: Bucket, credit: bool, amount: nat) {
    function Signed(): int {
      if credit then amount else 0 - amount
    }
  }

  /** What a journal was posted for; rows of other tables are named by their position. */
  datatype Source =
    | WithdrawalHold(withdrawal: nat) | WithdrawalCancel(withdrawal: nat)
    | WithdrawalRelease(withdrawal: nat) | WithdrawalSettlement(withdrawal: nat)
    | DepositCredit(deposit: nat)
    | Escrow(trade: nat) | EscrowRelease(trade: nat) | EscrowRefund(trade: nat)
    | InternalTransfer | Conversion | Issuance | Trading

  datatype Journal = Journal(source: Source, postings: seq<Posting>)

  function Weight(p: Posting, account: string, asset: string, bucket: Bucket): int {
    if p.account == account && p.asset == asset && p.bucket == bucket then p.Signed() else 0
  }

  /** What one journal does to a balance. */
  function Effect(postings: seq<Posting>, account: string, asset: string, bucket: Bucket): int {
    if postings == [] then 0
    else Weight(postings[0], account, asset, bucket) + Effect(postings[1..], account, asset, bucket)
  }

  function Balance(journals: seq<Journal>, account: string, asset: string, bucket: Bucket): int {
    if journals == [] then 0
    else
      var last := |journals| - 1;
      Balance(journals[..last], account, asset, bucket) + Effect(journals[last].postings, account, asset, bucket)
  }

  lemma BalanceSnoc(journals: seq<Journal>, j: Journal, account: string, asset: string, bucket: Bucket)
    ensures Balance(journals + [j], account, asset, bucket)
         == Balance(journals, account, asset, bucket) + Effect(j.postings, account, asset, bucket)
  {
    assert (journals + [j])[..|journals|] == journals;
  }

  /** The signed total of an asset over all accounts and buckets. */
  function AssetEffect(postings: seq<Posting>, asset: string): int {
    if postings == [] then 0
    else (if postings[0].asset == asset then postings[0].Signed() else 0) + AssetEffect(postings[1..], asset)
  }

  function AssetTotal(journals: seq<Journal>, asset: string): int {
    if journals == [] then 0
    else AssetTotal(journals[..|journals| - 1], asset) + AssetEffect(journals[|journals| - 1].postings, asset)
  }

  /** Every asset nets to zero, and no posting is empty. */
  ghost predicate Balanced(postings: seq<Posting>) {
    && (forall asset: string :: AssetEffect(postings, asset) == 0)
    && (forall i | 0 <= i < |postings| :: postings[i].amount > 0)
  }

  ghost predicate AllBalanced(journals: seq<Journal>) {
    forall i | 0 <= i < |journals| :: Balanced(journals[i].postings)
  }

  /** A ledger of balanced journals nets to zero in every asset. */
  lemma {:induction false} ZeroSum(journals: seq<Journal>, asset: string)
    requires AllBalanced(journals)
    ensures AssetTotal(journals, asset) == 0
  {
    if journals != [] {
      ZeroSum(journals[..|journals| - 1], asset);
    }
  }

  /** Moves an amount from one balance to another. */
  function Move(asset: string, amount: nat, from: string, fromBucket: Bucket, to: string,
                toBucket: Bucket): seq<Posting> {
    [Posting(from, asset, fromBucket, false, amount), Posting(to, asset, toBucket, true, amount)]
  }

  lemma MoveBalanced(asset: string, amount: nat, from: string, fromBucket: Bucket, to: string, toBucket: Bucket)
    requires amount > 0
    ensures Balanced(Move(asset, amount, from, fromBucket, to, toBucket))
  {
    var m := Move(asset, amount, from, fromBucket, to, toBucket);
    forall a: string ensures AssetEffect(m, a) == 0 {
      assert m[1..] == [Posting(to, asset, toBucket, true, amount)];
      assert AssetEffect(m[1..][1..], a) == 0;
    }
  }

  lemma MoveEffect(asset: string, amount: nat, from: string, fromBucket: Bucket, to: string, toBucket: Bucket,
                   account: string, a: string, bucket: Bucket)
    ensures Effect(Move(asset, amount, from, fromBucket, to, toBucket), account, a, bucket)
         == (if a == asset && account == to && bucket == toBucket then amount else 0)
            - (if a == asset && account == from && bucket == fromBucket then amount else 0)
  {
    var m := Move(asset, amount, from, fromBucket, to, toBucket);
    assert m[1..] == [Posting(to, asset, toBucket, true, amount)];
    assert Effect(m[1..][1..], account, a, bucket) == 0;
  }
}
