/** One `fetchMinerData` call (script.js:458-519): up to `1 + MaxRetries`
    requests through the proxy, separated by exponentially growing waits,
    then either the parsed payload with the failure bookkeeping reset, or an
    all-zero offline observation with the failure counter raised and the
    miner put in cool-down.

    The network is an oracle `nat -> Attempt` (attempt index to duration
    and reply), and the clock is explicit: attempt `k` ends `took` after it
    starts, and the next one starts after the retry wait. `Date.now()`
    readings are the end time of the attempt that decides the outcome. */
module Fetcher {
  import opened Wrappers
  import opened Records

  // ---------------------------------------------------------------------
  // Reading the payload (script.js:482-491)
  // ---------------------------------------------------------------------

  /** JavaScript truthiness of a JSON number that may be missing. */
  predicate Truthy(x: Option<int>) {
    x.Some? && x.value != 0
  }

  /** JavaScript `x || d` on a JSON number that may be missing. */
  function OrInt(x: Option<int>, d: int): int {
    if Truthy(x) then x.value else d
  }

  function OrReal(x: Option<real>, d: real): real {
    if x.Some? && x.value != 0.0 then x.value else d
  }

  /** `parseInt` of a number: the integer part, truncated toward zero. */
  function TruncateToInt(x: real): (n: int)
    ensures 0.0 <= x ==> n as real <= x < n as real + 1.0
    ensures x < 0.0 ==> n as real - 1.0 < x <= n as real
  {
    if x >= 0.0 then x.Floor else -((-x).Floor)
  }

  /** `Math.floor(shares * 0.95)`, computed exactly. */
  function NinetyFivePercent(shares: int): (r: int)
    ensures 100 * r <= 95 * shares < 100 * r + 100
  {
    (shares * 95) / 100
  }

  /** The observation a successful request yields. Each field has its own
      fallback; `acceptedShares` tries the payload's `acceptedShares`, then
      `valids`, then 95% of `shares`, where 0 counts as missing. */
  function ParsePayload(data: Payload): (o: Observation)
    ensures o.status == Online && o.lastShare.None?
    ensures o.hashrate == data.hashrate.GetOr(0.0)
    ensures o.shares == data.shares.GetOr(0)
    ensures o.bestDifficulty == data.bestDiff.GetOr(0.0)
    ensures o.uptime == data.uptime.GetOr(0)
    ensures o.temperature == TruncateToInt(data.temp.GetOr(0.0))
    ensures Truthy(data.acceptedShares) ==> o.acceptedShares == data.acceptedShares.value
    ensures !Truthy(data.acceptedShares) && Truthy(data.valids) ==> o.acceptedShares == data.valids.value
    ensures !Truthy(data.acceptedShares) && !Truthy(data.valids) ==>
      100 * o.acceptedShares <= 95 * o.shares < 100 * o.acceptedShares + 100
  {
    var shares := OrInt(data.shares, 0);
    Observation(
      Online,
      OrReal(data.hashrate, 0.0),
      shares,
      OrInt(data.acceptedShares, OrInt(data.valids, NinetyFivePercent(shares))),
      OrReal(data.bestDiff, 0.0),
      TruncateToInt(OrReal(data.temp, 0.0)),
      None,
      OrInt(data.uptime, 0))
  }

  // ---------------------------------------------------------------------
  // Retries and cool-down (script.js:492-517)
  // ---------------------------------------------------------------------

  /** What a request that exhausted its retries reports: offline, every
      number zero, not the miner's last-known values. */
  const OfflineObservation := Observation(Offline, 0.0, 0, 0, 0.0, 0, None, 0)

  function Pow2(k: nat): (p: nat)
    ensures p >= 1
  {
    if k == 0 then 1 else 2 * Pow2(k - 1)
  }

  function Min(a: nat, b: nat): nat {
    if a <= b then a else b
  }

  /** The cool-down after `failures` consecutive exhausted fetches: one
      minute per failure, at most five minutes. */
  function Cooldown(failures: nat): (ms: nat)
    ensures failures >= 1 ==> MinuteMs <= ms <= BackoffCapMinutes * MinuteMs
    ensures failures <= BackoffCapMinutes ==> ms == failures * MinuteMs
    ensures failures >= BackoffCapMinutes ==> ms == BackoffCapMinutes * MinuteMs
  {
    Min(failures, BackoffCapMinutes) * MinuteMs
  }

  function Sum(s: seq<nat>): nat {
    if |s| == 0 then 0 else s[0] + Sum(s[1..])
  }

  /** The time attempts `from` to `to - 1` spent waiting for the network. */
  function Elapsed(oracle: nat -> Attempt, from: nat, to: nat): nat
    requires from <= to
    decreases (to as int) - (from as int)
  {
    if from == to then 0 else oracle(from).took + Elapsed(oracle, from + 1, to)
  }

  /** The two records agree on everything except the three backoff fields
      `consecutiveFailures`, `lastSuccessTime` and `nextRetryTime`. */
  predicate SameExceptBackoff(a: Miner, b: Miner) {
    a.(consecutiveFailures := 0, lastSuccessTime := None, nextRetryTime := 0)
    == b.(consecutiveFailures := 0, lastSuccessTime := None, nextRetryTime := 0)
  }

  /** The result of one fetch: the observation returned, the miner record
      with its backoff fields updated, how many requests were made, the
      retry waits in order, and the clock when the outcome was known. */
  datatype Fetch = Fetch(obs: Observation, miner: Miner, attempts: nat, delays: seq<nat>, finishedAt: int)

  /** `fetchMinerData(miner, retryCount)` started at time `start`. */
  function FetchFrom(m: Miner, oracle: nat -> Attempt, retryCount: nat, start: int): (r: Fetch)
    requires retryCount <= MaxRetries
    ensures retryCount < r.attempts <= MaxRetries + 1
    ensures |r.delays| == r.attempts - 1 - retryCount
    ensures forall j :: 0 <= j < |r.delays| ==> r.delays[j] == RetryDelay * Pow2(retryCount + j)
    ensures forall j :: retryCount <= j < r.attempts - 1 ==> oracle(j).reply.Error?
    ensures r.finishedAt == start + Elapsed(oracle, retryCount, r.attempts) + Sum(r.delays)
    ensures SameExceptBackoff(m, r.miner)
    ensures oracle(r.attempts - 1).reply.Answer? ==>
      && r.obs == ParsePayload(oracle(r.attempts - 1).reply.data)
      && r.miner.consecutiveFailures == 0 && r.miner.nextRetryTime == 0
      && r.miner.lastSuccessTime == Some(r.finishedAt)
    ensures oracle(r.attempts - 1).reply.Error? ==>
      && r.attempts == MaxRetries + 1 && r.obs == OfflineObservation
      && r.miner.consecutiveFailures == m.consecutiveFailures + 1
      && r.miner.nextRetryTime == r.finishedAt + Cooldown(r.miner.consecutiveFailures)
      && r.miner.lastSuccessTime == m.lastSuccessTime
    decreases MaxRetries - retryCount
  {
    var attempt := oracle(retryCount);
    var done := start + attempt.took;
    match attempt.reply
    case Answer(data) =>
      Fetch(ParsePayload(data),
            m.(consecutiveFailures := 0, lastSuccessTime := Some(done), nextRetryTime := 0),
            retryCount + 1, [], done)
    case Error =>
      if retryCount < MaxRetries then
        var delay := RetryDelay * Pow2(retryCount);
        var rest := FetchFrom(m, oracle, retryCount + 1, done + delay);
        Fetch(rest.obs, rest.miner, rest.attempts, [delay] + rest.delays, rest.finishedAt)
      else
        var failures := m.consecutiveFailures + 1;
        Fetch(OfflineObservation,
              m.(consecutiveFailures := failures, nextRetryTime := done + Cooldown(failures)),
              retryCount + 1, [], done)
  }

  /** `fetchMinerData(miner)` called at time `now`. */
  function FetchMinerData(m: Miner, oracle: nat -> Attempt, now: int): (r: Fetch)
    ensures 1 <= r.attempts <= MaxRetries + 1 && |r.delays| == r.attempts - 1
    ensures forall j :: 0 <= j < |r.delays| ==> r.delays[j] == RetryDelay * Pow2(j)
    ensures forall j :: 0 <= j < r.attempts - 1 ==> oracle(j).reply.Error?
    ensures r.finishedAt == now + Elapsed(oracle, 0, r.attempts) + Sum(r.delays)
    ensures SameExceptBackoff(m, r.miner)
    ensures r.obs.status == Online <==> oracle(r.attempts - 1).reply.Answer?
    ensures r.obs.status == Online ==>
      && r.obs == ParsePayload(oracle(r.attempts - 1).reply.data)
      && r.miner.consecutiveFailures == 0 && r.miner.nextRetryTime == 0
      && r.miner.lastSuccessTime == Some(r.finishedAt)
    ensures r.obs.status == Offline ==>
      && r.attempts == MaxRetries + 1 && r.obs == OfflineObservation
      && r.miner.consecutiveFailures == m.consecutiveFailures + 1
      && r.miner.nextRetryTime == r.finishedAt + Cooldown(r.miner.consecutiveFailures)
      && r.miner.lastSuccessTime == m.lastSuccessTime
  {
    FetchFrom(m, oracle, 0, now)
  }

  /** A fetch reports offline exactly when all `1 + MaxRetries` requests
      failed; then the waits between them were 1000 ms and 2000 ms. */
  lemma OfflineIffAllAttemptsFail(m: Miner, oracle: nat -> Attempt, now: int)
    ensures var r := FetchMinerData(m, oracle, now);
      r.obs.status == Offline <==> forall j :: 0 <= j <= MaxRetries ==> oracle(j).reply.Error?
    ensures var r := FetchMinerData(m, oracle, now);
      r.obs.status == Offline ==> r.attempts == 3 && r.delays == [1000, 2000]
  {
    var r := FetchMinerData(m, oracle, now);
    if r.obs.status == Offline {
      assert r.delays[0] == RetryDelay * Pow2(0);
      assert r.delays[1] == RetryDelay * Pow2(1);
    } else {
      assert oracle(r.attempts - 1).reply.Answer?;
    }
  }

  /** Once a request succeeds no further request is made: the successful
      attempt is the first one that succeeded. */
  lemma SuccessStopsRetrying(m: Miner, oracle: nat -> Attempt, now: int, k: nat)
    requires oracle(k).reply.Answer?
    requires forall j :: 0 <= j < k ==> oracle(j).reply.Error?
    ensures k <= MaxRetries ==> FetchMinerData(m, oracle, now).attempts == k + 1
    ensures k <= MaxRetries ==> FetchMinerData(m, oracle, now).obs == ParsePayload(oracle(k).reply.data)
    ensures k > MaxRetries ==> FetchMinerData(m, oracle, now).obs == OfflineObservation
  {
  }

  /** A success resets the failure counter and clears the cool-down, and a
      failure raises the counter by exactly one, whatever their prior
      values; in both cases the record is otherwise untouched. */
  lemma BackoffBookkeeping(m: Miner, oracle: nat -> Attempt, now: int)
    ensures var r := FetchMinerData(m, oracle, now);
      && (r.obs.status == Online ==> r.miner.consecutiveFailures == 0 && r.miner.nextRetryTime == 0)
      && (r.obs.status == Offline ==>
            r.miner.consecutiveFailures == m.consecutiveFailures + 1
            && r.miner.nextRetryTime - r.finishedAt == Min(m.consecutiveFailures + 1, 5) * 60000)
      && r.miner.id == m.id && r.miner.ip == m.ip && r.miner.history == m.history
  {
  }

  /** Requests that each end within the timeout spend at most that long per
      request waiting for the network. */
  lemma {:induction false} ElapsedBound(oracle: nat -> Attempt, from: nat, to: nat)
    requires from <= to
    requires forall j: nat :: oracle(j).took <= RequestTimeout
    ensures Elapsed(oracle, from, to) <= (to - from) * RequestTimeout
    decreases (to as int) - (from as int)
  {
    if from < to {
      ElapsedBound(oracle, from + 1, to);
    }
  }

  /** With every request cut off by the 20-second abort signal, one fetch
      ends at most three timeouts and the 1000 + 2000 ms of retry waits
      after it started, and never before. */
  lemma FetchDurationBound(m: Miner, oracle: nat -> Attempt, now: int)
    requires forall j: nat :: oracle(j).took <= RequestTimeout
    ensures var r := FetchMinerData(m, oracle, now);
      now <= r.finishedAt <= now + (MaxRetries + 1) * RequestTimeout + 3000
  {
    var r := FetchMinerData(m, oracle, now);
    ElapsedBound(oracle, 0, r.attempts);
    if |r.delays| == 1 {
      assert r.delays == [r.delays[0]] && r.delays[0] == 1000;
    } else if |r.delays| == 2 {
      assert r.delays == [r.delays[0], r.delays[1]] && r.delays[0] == 1000 && r.delays[1] == 2000;
    }
  }

  /** A payload of `{hashrate: 523.4, shares: 100}` yields an online
      observation with 95 accepted shares. */
  lemma DerivedAcceptedShares()
    ensures var o := ParsePayload(EmptyPayload.(hashrate := Some(523.4), shares := Some(100)));
      o.status == Online && o.hashrate == 523.4 && o.shares == 100 && o.acceptedShares == 95
  {
  }
}
