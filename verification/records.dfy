/** The dashboard's configuration and the records the polling engine works
    on: a miner, the observation one fetch produces, the payload the proxy
    returns, and the outcome of one network attempt. */
module Records {
  import opened Wrappers

  // Configuration (script.js:2-11); times are in milliseconds.
  const UpdateInterval: nat := 5000
  const MaxDataPoints: nat := 20
  const RequestTimeout: nat := 20000
  const MaxRetries: nat := 2
  const RetryDelay: nat := 1000
  const StaggerDelay: nat := 500

  /** The cool-down after repeated failures grows by one minute per failure
      and stops growing at five minutes (script.js:505-506). */
  const BackoffCapMinutes: nat := 5
  const MinuteMs: nat := 60000

  datatype Status = Online | Offline

  /** The rolling in-memory chart data of one miner (or of the fleet total):
      time labels and hashrate values, pushed and evicted together. */
  datatype History = History(labels: seq<string>, hashrate: seq<real>)

  const EmptyHistory := History([], [])

  /** The JSON object the proxy answers with. Every key may be missing;
      `valids` and `uptime` are read by the browser but never produced by the
      proxy's scraper. */
  datatype Payload = Payload(
    hashrate: Option<real>,
    shares: Option<int>,
    acceptedShares: Option<int>,
    valids: Option<int>,
    bestDiff: Option<real>,
    temp: Option<real>,
    uptime: Option<int>)

  const EmptyPayload := Payload(None, None, None, None, None, None, None)

  /** What one `fetchMinerData` call reports about a miner. */
  datatype Observation = Observation(
    status: Status,
    hashrate: real,
    shares: int,
    acceptedShares: int,
    bestDifficulty: real,
    temperature: int,
    lastShare: Option<string>,
    uptime: int)

  /** A registered miner (the object literal built at script.js:213-231). */
  datatype Miner = Miner(
    id: int,
    ip: string,
    name: string,
    status: Status,
    hashrate: real,
    shares: int,
    acceptedShares: int,
    bestDifficulty: real,
    lastShare: Option<string>,
    uptime: int,
    temperature: int,
    addedAt: string,
    consecutiveFailures: nat,
    lastSuccessTime: Option<int>,
    nextRetryTime: int,
    history: History)

  /** The answer to one request through the proxy: a parsed payload, or any
      failure (a non-2xx status, a timeout, a transport or JSON error). */
  datatype Reply = Answer(data: Payload) | Error

  /** One network attempt: how long it took and what came back. */
  datatype Attempt = Attempt(took: nat, reply: Reply)
}
