/** The fleet totals of `updateTotalStats` (script.js:578-592): how many
    miners there are, how many are online and offline, the hashrate summed
    over online miners only, and the accepted shares summed over all. */
module Aggregate {
  import opened Records

  datatype Totals = Totals(total: nat, active: nat, offline: int, hashrate: real, accepted: int)

  /** `miners.filter(m => m.status === 'online').length`. */
  function CountOnline(ms: seq<Miner>): (c: nat)
    ensures c <= |ms|
    ensures c == |ms| <==> forall i :: 0 <= i < |ms| ==> ms[i].status == Online
    ensures c == 0 <==> forall i :: 0 <= i < |ms| ==> ms[i].status == Offline
    decreases |ms|
  {
    if |ms| == 0 then 0
    else
      var init := ms[..|ms| - 1];
      var c := CountOnline(init) + (if ms[|ms| - 1].status == Online then 1 else 0);
      assert forall i :: 0 <= i < |init| ==> init[i] == ms[i];
      c
  }

  /** The contribution `m.status === 'online' ? m.hashrate : 0`. */
  function OnlineRate(m: Miner): real {
    if m.status == Online then m.hashrate else 0.0
  }

  /** `miners.reduce((sum, m) => sum + OnlineRate(m), 0)`, folded from the
      left as `reduce` does. */
  function OnlineHashrate(ms: seq<Miner>): real
    decreases |ms|
  {
    if |ms| == 0 then 0.0 else OnlineHashrate(ms[..|ms| - 1]) + OnlineRate(ms[|ms| - 1])
  }

  /** `miners.reduce((sum, m) => sum + (m.acceptedShares || 0), 0)`; a zero
      count contributes zero either way, so `|| 0` changes nothing. */
  function AcceptedSum(ms: seq<Miner>): int
    decreases |ms|
  {
    if |ms| == 0 then 0 else AcceptedSum(ms[..|ms| - 1]) + ms[|ms| - 1].acceptedShares
  }

  /** The numbers `updateTotalStats` displays. */
  function TotalStats(ms: seq<Miner>): (t: Totals)
    ensures t.total == |ms| && t.active <= t.total
    ensures t.active + t.offline == t.total && t.offline >= 0
    ensures t.offline == 0 <==> forall i :: 0 <= i < |ms| ==> ms[i].status == Online
    ensures t.active == 0 <==> forall i :: 0 <= i < |ms| ==> ms[i].status == Offline
  {
    var active := CountOnline(ms);
    Totals(|ms|, active, |ms| - active, OnlineHashrate(ms), AcceptedSum(ms))
  }

  // ---------------------------------------------------------------------
  // Reference definitions: the same sums taken over the online sub-list
  // ---------------------------------------------------------------------

  /** The online miners, in order. */
  function OnlineMiners(ms: seq<Miner>): (r: seq<Miner>)
    ensures forall m :: m in r <==> m in ms && m.status == Online
    decreases |ms|
  {
    if |ms| == 0 then []
    else
      var rest := OnlineMiners(ms[1..]);
      assert ms == [ms[0]] + ms[1..];
      if ms[0].status == Online then [ms[0]] + rest else rest
  }

  /** Plain hashrate sum, folded from the right. */
  function RateSum(ms: seq<Miner>): real
    decreases |ms|
  {
    if |ms| == 0 then 0.0 else ms[0].hashrate + RateSum(ms[1..])
  }

  /** Splitting a fleet into two parts splits every total. */
  lemma {:induction false} TotalsConcat(a: seq<Miner>, b: seq<Miner>)
    ensures CountOnline(a + b) == CountOnline(a) + CountOnline(b)
    ensures OnlineHashrate(a + b) == OnlineHashrate(a) + OnlineHashrate(b)
    ensures AcceptedSum(a + b) == AcceptedSum(a) + AcceptedSum(b)
    decreases |b|
  {
    if |b| == 0 {
      assert a + b == a;
    } else {
      var b' := b[..|b| - 1];
      TotalsConcat(a, b');
      assert (a + b)[..|a + b| - 1] == a + b';
      assert (a + b)[|a + b| - 1] == b[|b| - 1];
    }
  }

  /** Counting and summing over the filtered list agrees with the fused
      reductions: `active` is the length of the online sub-list and
      `totalHashrate` is the hashrate summed over it. */
  lemma {:induction false} FilterThenReduce(ms: seq<Miner>)
    ensures CountOnline(ms) == |OnlineMiners(ms)|
    ensures OnlineHashrate(ms) == RateSum(OnlineMiners(ms))
    decreases |ms|
  {
    if |ms| > 0 {
      FilterThenReduce(ms[1..]);
      TotalsConcat([ms[0]], ms[1..]);
      assert [ms[0]] + ms[1..] == ms;
      assert [ms[0]][..0] == [];
    }
  }

  /** A fleet that is entirely offline contributes no hashrate. */
  lemma {:induction false} AllOfflineNoHashrate(ms: seq<Miner>)
    requires forall i :: 0 <= i < |ms| ==> ms[i].status == Offline
    ensures TotalStats(ms).hashrate == 0.0 && TotalStats(ms).offline == |ms|
    decreases |ms|
  {
    if |ms| > 0 {
      AllOfflineNoHashrate(ms[..|ms| - 1]);
    }
  }

  /** With non-negative hashrates, the total is non-negative and no smaller
      than any single online miner's hashrate. */
  lemma {:induction false} HashrateDominates(ms: seq<Miner>, k: nat)
    requires forall i :: 0 <= i < |ms| ==> ms[i].hashrate >= 0.0
    requires k < |ms| && ms[k].status == Online
    ensures TotalStats(ms).hashrate >= ms[k].hashrate
    decreases |ms|
  {
    NonNegativeHashrate(ms[..|ms| - 1]);
    if k < |ms| - 1 {
      HashrateDominates(ms[..|ms| - 1], k);
    }
  }

  lemma {:induction false} NonNegativeHashrate(ms: seq<Miner>)
    requires forall i :: 0 <= i < |ms| ==> ms[i].hashrate >= 0.0
    ensures OnlineHashrate(ms) >= 0.0
    decreases |ms|
  {
    if |ms| > 0 {
      NonNegativeHashrate(ms[..|ms| - 1]);
    }
  }
}
