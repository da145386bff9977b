/** One polling sweep: `updateMinerData` (script.js:522-576) for a single
    miner, and `updateAllMiners` (script.js:594-621), which visits the
    miners in index order, skips those still in cool-down, waits the
    stagger delay after every polled miner but the last index, then
    recomputes the fleet totals, pushes the total chart and saves.

    The network is an oracle per miner index, the clock is threaded
    explicitly, `toLocaleTimeString` is a parameter `labelAt`, and the set
    of miner ids that have a chart stands for `minerCharts`. */
module Sweep {
  import opened Wrappers
  import opened Records
  import opened Ring
  import opened Fetcher
  import opened Aggregate
  import opened Storage
  import Registry

  // ---------------------------------------------------------------------
  // One miner (script.js:522-576)
  // ---------------------------------------------------------------------

  /** The metrics a record displays, read back as an observation. */
  function ObservationOf(m: Miner): Observation {
    Observation(m.status, m.hashrate, m.shares, m.acceptedShares, m.bestDifficulty,
                m.temperature, m.lastShare, m.uptime)
  }

  /** The record with its eight displayed metrics blanked: what an update of
      the metrics must leave alone. */
  function Blank(m: Miner): Miner {
    m.(status := Online, hashrate := 0.0, shares := 0, acceptedShares := 0, bestDifficulty := 0.0,
       temperature := 0, lastShare := None, uptime := 0)
  }

  /** Copies an observation onto the record (script.js:541-548). */
  function Apply(m: Miner, obs: Observation): (r: Miner)
    ensures ObservationOf(r) == obs
    ensures Blank(r) == Blank(m)
  {
    m.(status := obs.status, hashrate := obs.hashrate, shares := obs.shares,
       acceptedShares := obs.acceptedShares, bestDifficulty := obs.bestDifficulty,
       temperature := obs.temperature, lastShare := obs.lastShare, uptime := obs.uptime)
  }

  /** The body of `saveMinerToDatabase(miner, data)`: what the sweep hands
      to the proxy's `/save` endpoint. Its reply is ignored. */
  datatype Saved = Saved(ip: string, name: string, data: Observation)

  /** What `updateMinerData` did: the fetch, the record afterwards and the
      row sent for storage. */
  datatype Update = Update(fetch: Fetch, miner: Miner, saved: Saved)

  /** `updateMinerChart(miner.id, miner)`: pushes the current hashrate when
      the miner has a chart, and does nothing otherwise. */
  function ChartPush(m: Miner, charted: bool, stamp: string): Miner {
    if charted then m.(history := Push(m.history, stamp, m.hashrate)) else m
  }

  /** The fields no update touches. */
  predicate SameIdentity(a: Miner, b: Miner) {
    a.id == b.id && a.ip == b.ip && a.name == b.name && a.addedAt == b.addedAt
  }

  /** `updateMinerData(miner)` started at time `now`. */
  function UpdateMinerData(m: Miner, oracle: nat -> Attempt, now: int, charted: bool,
                           labelAt: int -> string): (r: Update)
    ensures r.fetch == FetchMinerData(m, oracle, now)
    ensures ObservationOf(r.miner) == r.fetch.obs
    ensures SameIdentity(m, r.miner)
    ensures r.miner.consecutiveFailures == r.fetch.miner.consecutiveFailures
    ensures r.miner.lastSuccessTime == r.fetch.miner.lastSuccessTime
    ensures r.miner.nextRetryTime == r.fetch.miner.nextRetryTime
    ensures charted ==> r.miner.history == Push(m.history, labelAt(r.fetch.finishedAt), r.fetch.obs.hashrate)
    ensures !charted ==> r.miner.history == m.history
    ensures r.saved == Saved(m.ip, m.name, r.fetch.obs)
  {
    var f := FetchMinerData(m, oracle, now);
    var applied := Apply(f.miner, f.obs);
    Update(f, ChartPush(applied, charted, labelAt(f.finishedAt)), Saved(applied.ip, applied.name, f.obs))
  }

  // ---------------------------------------------------------------------
  // The sweep (script.js:594-621)
  // ---------------------------------------------------------------------

  /** The miner is in cool-down at time `t`: `miner.nextRetryTime &&
      Date.now() < miner.nextRetryTime`, where 0 means "no cool-down". */
  predicate InBackoff(m: Miner, t: int) {
    m.nextRetryTime != 0 && t < m.nextRetryTime
  }

  /** What the sweep did with one miner, and when it got to it. */
  datatype Step = Skipped(at: int) | Polled(at: int, update: Update, staggered: bool)

  /** The loop body for the miner at an index; `last` says whether that is
      the last index. */
  function Visit(m: Miner, oracle: nat -> Attempt, at: int, charted: bool,
                 labelAt: int -> string, last: bool): (s: Step)
    ensures s.at == at
    ensures s.Skipped? <==> InBackoff(m, at)
    ensures s.Polled? ==> s.update == UpdateMinerData(m, oracle, at, charted, labelAt)
    ensures s.Polled? ==> (s.staggered <==> !last)
  {
    if InBackoff(m, at) then Skipped(at)
    else Polled(at, UpdateMinerData(m, oracle, at, charted, labelAt), !last)
  }

  /** The record after a step. */
  function Outcome(m: Miner, s: Step): Miner {
    match s
    case Skipped(_) => m
    case Polled(_, u, _) => u.miner
  }

  /** The clock when the sweep moves on from a step. */
  function Resume(s: Step): int {
    match s
    case Skipped(at) => at
    case Polled(_, u, staggered) => u.fetch.finishedAt + (if staggered then StaggerDelay else 0)
  }

  /** The clock at which the step at index `i` starts. */
  function StartOf(steps: seq<Step>, i: nat, now: int): int
    requires i <= |steps|
  {
    if i == 0 then now else Resume(steps[i - 1])
  }

  /** Appending a step does not move the start of the earlier ones. */
  lemma StartOfSnoc(steps: seq<Step>, s: Step, now: int)
    ensures forall j :: 0 <= j <= |steps| ==> StartOf(steps + [s], j, now) == StartOf(steps, j, now)
  {
    forall j | 0 < j <= |steps| ensures StartOf(steps + [s], j, now) == StartOf(steps, j, now) {
      assert (steps + [s])[j - 1] == steps[j - 1];
    }
  }

  // ---------------------------------------------------------------------
  // The update as written (script.js:565-575)
  // ---------------------------------------------------------------------

  /** What `updateMinerData` does as written, and whether it threw. With the
      miner's card on the page it writes five display fields
      (script.js:567-571), but `renderMiner` (script.js:259-305) only gives
      the card the hashrate and accepted-shares ones: the write to
      `miner-<id>-shares` throws, after the record and the `/save` row are
      updated and before `updateMinerChart` runs. `carded` says whether the
      card is on the page. */
  datatype Written = Written(update: Update, threw: bool)

  function UpdateMinerDataAsWritten(m: Miner, oracle: nat -> Attempt, now: int, carded: bool,
                                    charted: bool, labelAt: int -> string): (r: Written)
    ensures r.threw <==> carded
    ensures r.update.fetch == FetchMinerData(m, oracle, now)
    ensures ObservationOf(r.update.miner) == r.update.fetch.obs
    ensures SameIdentity(m, r.update.miner)
    ensures r.update.saved == Saved(m.ip, m.name, r.update.fetch.obs)
    ensures carded || !charted ==> r.update.miner.history == m.history
    ensures !carded && charted ==>
      r.update.miner.history == Push(m.history, labelAt(r.update.fetch.finishedAt), r.update.fetch.obs.hashrate)
  {
    var f := FetchMinerData(m, oracle, now);
    var applied := Apply(f.miner, f.obs);
    var saved := Saved(applied.ip, applied.name, f.obs);
    if carded then Written(Update(f, applied, saved), true)
    else Written(Update(f, ChartPush(applied, charted, labelAt(f.finishedAt)), saved), false)
  }

  /** The update as written is the intended one with the chart push taken
      away whenever the card is on the page. */
  lemma AsWrittenDropsChartPush(m: Miner, oracle: nat -> Attempt, now: int, carded: bool,
                                charted: bool, labelAt: int -> string)
    ensures UpdateMinerDataAsWritten(m, oracle, now, carded, charted, labelAt).update
      == UpdateMinerData(m, oracle, now, charted && !carded, labelAt)
  {
  }

  /** A miner with its card and its chart on the page, polled once with an
      empty chart: as written the chart stays empty, while the intended
      update records one sample. */
  lemma CardedPollLosesSample(m: Miner, oracle: nat -> Attempt, now: int, labelAt: int -> string)
    requires m.history == EmptyHistory
    ensures UpdateMinerDataAsWritten(m, oracle, now, true, true, labelAt).update.miner.history == EmptyHistory
    ensures |UpdateMinerData(m, oracle, now, true, labelAt).miner.history.labels| == 1
  {
  }

  /** The loop body of `updateAllMiners` around the update as written: the
      error lands in the sweep's `catch` (script.js:609-611), and the stagger
      wait still follows. */
  function VisitAsWritten(m: Miner, oracle: nat -> Attempt, at: int, carded: bool, charted: bool,
                          labelAt: int -> string, last: bool): (s: Step)
    ensures s.at == at
    ensures s.Skipped? <==> InBackoff(m, at)
    ensures s.Polled? ==> s.update == UpdateMinerDataAsWritten(m, oracle, at, carded, charted, labelAt).update
    ensures s.Polled? ==> (s.staggered <==> !last)
  {
    if InBackoff(m, at) then Skipped(at)
    else Polled(at, UpdateMinerDataAsWritten(m, oracle, at, carded, charted, labelAt).update, !last)
  }

  /** A chart's canvas lives inside its card, so every charted miner has
      its card on the page; then a sweep as written pushes no miner's chart,
      and charts that start empty (as every added or loaded miner's does)
      stay empty. */
  lemma AsWrittenSweepKeepsCharts(ms: seq<Miner>, oracles: nat -> nat -> Attempt, labelAt: int -> string,
                                  cards: set<int>, charts: set<int>, steps: seq<Step>, out: seq<Miner>)
    requires charts <= cards
    requires |steps| == |ms| && |out| == |ms|
    requires forall i :: 0 <= i < |ms| ==>
      steps[i] == VisitAsWritten(ms[i], oracles(i), steps[i].at, ms[i].id in cards, ms[i].id in charts,
                                 labelAt, i == |ms| - 1)
    requires forall i :: 0 <= i < |ms| ==> out[i] == Outcome(ms[i], steps[i])
    ensures forall i :: 0 <= i < |ms| ==> out[i].history == ms[i].history
  {
  }

  /** With every charted miner on the page, a sweep as written visits each
      miner exactly as the intended sweep does with no charts at all. */
  lemma AsWrittenVisitIsChartless(m: Miner, oracle: nat -> Attempt, at: int, carded: bool, charted: bool,
                                  labelAt: int -> string, last: bool)
    requires charted ==> carded
    ensures VisitAsWritten(m, oracle, at, carded, charted, labelAt, last) == Visit(m, oracle, at, false, labelAt, last)
  {
    AsWrittenDropsChartPush(m, oracle, at, carded, charted, labelAt);
  }

  /** Everything one sweep produces. */
  datatype SweepResult = SweepResult(
    steps: seq<Step>,
    miners: seq<Miner>,
    clock: int,
    totals: Totals,
    totalChart: History,
    store: Store)

  /** `steps` and `out` record the first `|steps|` miners of a sweep
      started at `now`: each step visited its miner at the time the
      previous one left off, and `out` holds the records afterwards. */
  predicate SweptPrefix(ms: seq<Miner>, oracles: nat -> nat -> Attempt, now: int,
                        labelAt: int -> string, charts: set<int>,
                        steps: seq<Step>, out: seq<Miner>)
  {
    && |steps| == |out| <= |ms|
    && (forall j :: 0 <= j < |steps| ==>
          steps[j] == Visit(ms[j], oracles(j), steps[j].at, ms[j].id in charts, labelAt, j == |ms| - 1))
    && (forall j {:trigger StartOf(steps, j, now)} :: 0 <= j < |steps| ==> steps[j].at == StartOf(steps, j, now))
    && (forall j :: 0 <= j < |steps| ==> out[j] == Outcome(ms[j], steps[j]))
  }

  /** Visiting the next miner at the current clock extends the prefix. */
  lemma SweptPrefixSnoc(ms: seq<Miner>, oracles: nat -> nat -> Attempt, now: int,
                        labelAt: int -> string, charts: set<int>,
                        steps: seq<Step>, out: seq<Miner>)
    requires SweptPrefix(ms, oracles, now, labelAt, charts, steps, out) && |steps| < |ms|
    ensures var i := |steps|;
      var s := Visit(ms[i], oracles(i), StartOf(steps, i, now), ms[i].id in charts, labelAt, i == |ms| - 1);
      SweptPrefix(ms, oracles, now, labelAt, charts, steps + [s], out + [Outcome(ms[i], s)])
  {
    var i := |steps|;
    var s := Visit(ms[i], oracles(i), StartOf(steps, i, now), ms[i].id in charts, labelAt, i == |ms| - 1);
    var steps', out' := steps + [s], out + [Outcome(ms[i], s)];
    StartOfSnoc(steps, s, now);
    forall j | 0 <= j <= i
      ensures steps'[j] == Visit(ms[j], oracles(j), steps'[j].at, ms[j].id in charts, labelAt, j == |ms| - 1)
    {
      if j < i {
        assert steps'[j] == steps[j];
      }
    }
    forall j | 0 <= j <= i
      ensures steps'[j].at == StartOf(steps', j, now)
    {
      if j < i {
        assert steps'[j] == steps[j];
        assert steps[j].at == StartOf(steps, j, now);
      }
    }
    forall j | 0 <= j <= i
      ensures out'[j] == Outcome(ms[j], steps'[j])
    {
      if j < i {
        assert out'[j] == out[j] && steps'[j] == steps[j];
      }
    }
  }

  /** `updateAllMiners()` started at `now`. `oracles(i)` answers the requests
      for the miner at index `i`; `charts` holds the ids of the miners that
      have a chart, and `totalChartReady` says whether the fleet chart
      exists. */
  method UpdateAllMiners(ms: seq<Miner>, oracles: nat -> nat -> Attempt, now: int,
                         labelAt: int -> string, charts: set<int>,
                         totalChart: History, totalChartReady: bool, store: Store)
    returns (r: SweepResult)
    ensures |r.steps| == |ms| && |r.miners| == |ms|
    ensures forall i :: 0 <= i < |ms| ==>
      r.steps[i] == Visit(ms[i], oracles(i), r.steps[i].at, ms[i].id in charts, labelAt, i == |ms| - 1)
    ensures forall i {:trigger StartOf(r.steps, i, now)} :: 0 <= i < |ms| ==> r.steps[i].at == StartOf(r.steps, i, now)
    ensures forall i :: 0 <= i < |ms| ==> r.miners[i] == Outcome(ms[i], r.steps[i])
    ensures r.clock == StartOf(r.steps, |ms|, now)
    ensures r.totals == TotalStats(r.miners)
    ensures totalChartReady ==> r.totalChart == Push(totalChart, labelAt(r.clock), r.totals.hashrate)
    ensures !totalChartReady ==> r.totalChart == totalChart
    ensures r.store == SaveMiners(r.miners, store)
  {
    var steps: seq<Step> := [];
    var out: seq<Miner> := [];
    var clock := now;
    while |steps| < |ms|
      invariant SweptPrefix(ms, oracles, now, labelAt, charts, steps, out)
      invariant clock == StartOf(steps, |steps|, now)
      decreases |ms| - |steps|
    {
      var i := |steps|;
      var s := Visit(ms[i], oracles(i), clock, ms[i].id in charts, labelAt, i == |ms| - 1);
      SweptPrefixSnoc(ms, oracles, now, labelAt, charts, steps, out);
      steps, out := steps + [s], out + [Outcome(ms[i], s)];
      clock := Resume(s);
    }
    var totals := TotalStats(out);
    var chart := if totalChartReady then Push(totalChart, labelAt(clock), totals.hashrate) else totalChart;
    r := SweepResult(steps, out, clock, totals, chart, SaveMiners(out, store));
  }

  // ---------------------------------------------------------------------
  // What a sweep preserves
  // ---------------------------------------------------------------------

  /** The backoff bookkeeping agrees with the displayed status: a record is
      online exactly when it has no recorded failures, and it has a
      cool-down exactly when it has failures. */
  predicate Settled(m: Miner) {
    && (m.status == Online <==> m.consecutiveFailures == 0)
    && (m.consecutiveFailures == 0 <==> m.nextRetryTime == 0)
  }

  /** A freshly added miner is settled. */
  lemma NewMinerSettled(id: int, ip: string, name: string, addedAt: string)
    ensures Settled(Miner(id, ip, name, Online, 0.0, 0, 0, 0.0, None, 0, 0, addedAt, 0, None, 0, EmptyHistory))
  {
  }

  /** Whatever state a record was in, a poll started at a non-negative time
      leaves it settled, keeps its identity, and keeps its chart buffer
      well formed. */
  lemma UpdateSettles(m: Miner, oracle: nat -> Attempt, now: int, charted: bool, labelAt: int -> string)
    requires now >= 0
    ensures var u := UpdateMinerData(m, oracle, now, charted, labelAt);
      Settled(u.miner) && SameIdentity(m, u.miner)
      && (WellFormed(m.history) ==> WellFormed(u.miner.history))
  {
    var u := UpdateMinerData(m, oracle, now, charted, labelAt);
    var f := u.fetch;
    assert f.finishedAt >= now by {
      assert Elapsed(oracle, 0, f.attempts) >= 0 && Sum(f.delays) >= 0;
    }
  }

  /** The sweep moves on from a miner no earlier than it reached it. */
  lemma ResumeNotBefore(m: Miner, oracle: nat -> Attempt, at: int, charted: bool,
                        labelAt: int -> string, last: bool)
    ensures Resume(Visit(m, oracle, at, charted, labelAt, last)) >= at
  {
  }

  /** Every clock reading during a sweep is at least the start time. */
  lemma {:induction false} ClockNeverRunsBack(ms: seq<Miner>, oracles: nat -> nat -> Attempt, now: int,
                                              labelAt: int -> string, charts: set<int>,
                                              steps: seq<Step>, k: nat)
    requires |steps| == |ms| && k <= |ms|
    requires forall i :: 0 <= i < |ms| ==>
      steps[i] == Visit(ms[i], oracles(i), steps[i].at, ms[i].id in charts, labelAt, i == |ms| - 1)
    requires forall i {:trigger StartOf(steps, i, now)} :: 0 <= i < |ms| ==> steps[i].at == StartOf(steps, i, now)
    ensures StartOf(steps, k, now) >= now
    decreases k
  {
    if k > 0 {
      ClockNeverRunsBack(ms, oracles, now, labelAt, charts, steps, k - 1);
      ResumeNotBefore(ms[k - 1], oracles(k - 1), steps[k - 1].at, ms[k - 1].id in charts, labelAt, k - 1 == |ms| - 1);
    }
  }

  /** A sweep started at a non-negative time keeps every settled record
      settled, keeps every record's identity and well-formed chart buffer,
      and so keeps addresses and ids unique; a skipped miner is left exactly
      as it was. */
  lemma SweepPreservesInvariants(ms: seq<Miner>, oracles: nat -> nat -> Attempt, now: int,
                                 labelAt: int -> string, charts: set<int>, steps: seq<Step>, out: seq<Miner>)
    requires now >= 0
    requires |steps| == |ms| && |out| == |ms|
    requires forall i :: 0 <= i < |ms| ==>
      steps[i] == Visit(ms[i], oracles(i), steps[i].at, ms[i].id in charts, labelAt, i == |ms| - 1)
    requires forall i {:trigger StartOf(steps, i, now)} :: 0 <= i < |ms| ==> steps[i].at == StartOf(steps, i, now)
    requires forall i :: 0 <= i < |ms| ==> out[i] == Outcome(ms[i], steps[i])
    ensures forall i :: 0 <= i < |ms| ==> SameIdentity(ms[i], out[i])
    ensures forall i :: 0 <= i < |ms| && Settled(ms[i]) ==> Settled(out[i])
    ensures forall i :: 0 <= i < |ms| && WellFormed(ms[i].history) ==> WellFormed(out[i].history)
    ensures forall i :: 0 <= i < |ms| && steps[i].Skipped? ==> out[i] == ms[i]
  {
    forall i | 0 <= i < |ms|
      ensures SameIdentity(ms[i], out[i])
      ensures Settled(ms[i]) ==> Settled(out[i])
      ensures WellFormed(ms[i].history) ==> WellFormed(out[i].history)
    {
      if steps[i].Polled? {
        ClockNeverRunsBack(ms, oracles, now, labelAt, charts, steps, i);
        UpdateSettles(ms[i], oracles(i), steps[i].at, ms[i].id in charts, labelAt);
      }
    }
  }

  /** A sweep changes neither which addresses nor which ids are registered,
      nor their order. */
  lemma SweepKeepsRegistry(ms: seq<Miner>, out: seq<Miner>)
    requires |out| == |ms| && forall i :: 0 <= i < |ms| ==> SameIdentity(ms[i], out[i])
    ensures Storage.Addresses(out) == Storage.Addresses(ms)
    ensures Registry.UniqueAddresses(ms) ==> Registry.UniqueAddresses(out)
    ensures Registry.UniqueIds(ms) ==> Registry.UniqueIds(out)
  {
  }
}
