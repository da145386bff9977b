/** Persistence of the registry in the browser's key-value storage:
    `saveMiners` (script.js:779-802) writes the projection of every record
    under one key, and `loadSavedMiners` (script.js:804-828) appends the
    stored records to the registry, with fresh empty chart histories.

    The storage is a map from keys to what JSON parsing of the stored text
    yields; other keys (the dark-mode flag) live in the same map. */
module Storage {
  import opened Wrappers
  import opened Records

  /** The key the registry is saved under and loaded from. */
  const MinersKey := "nerdminer-miners"

  /** The key the historical-data loader reads (script.js:704). */
  const LegacyMinersKey := "miners"

  /** The fields of a miner record that are persisted: everything except
      the chart history. */
  datatype StoredMiner = StoredMiner(
    id: int,
    ip: string,
    name: string,
    status: Status,
    hashrate: real,
    shares: int,
    acceptedShares: int,
    bestDifficulty: real,
    temperature: int,
    lastShare: Option<string>,
    uptime: int,
    addedAt: string,
    consecutiveFailures: nat,
    lastSuccessTime: Option<int>,
    nextRetryTime: int)

  /** What `JSON.parse` makes of a stored text: a list of records, or
      anything else (a parse error, or the empty string, which the loader
      treats as absent). */
  datatype Blob = Records(entries: seq<StoredMiner>) | Unparsable

  type Store = map<string, Blob>

  /** The object literal of `saveMiners`. `consecutiveFailures || 0` and
      `nextRetryTime || 0` are identities on numbers. */
  function Project(m: Miner): (s: StoredMiner)
    ensures s.id == m.id && s.ip == m.ip && s.name == m.name && s.addedAt == m.addedAt
    ensures s.status == m.status && s.hashrate == m.hashrate && s.shares == m.shares
    ensures s.acceptedShares == m.acceptedShares && s.bestDifficulty == m.bestDifficulty
    ensures s.temperature == m.temperature && s.lastShare == m.lastShare && s.uptime == m.uptime
    ensures s.consecutiveFailures == m.consecutiveFailures
    ensures s.lastSuccessTime == m.lastSuccessTime && s.nextRetryTime == m.nextRetryTime
  {
    StoredMiner(m.id, m.ip, m.name, m.status, m.hashrate, m.shares, m.acceptedShares,
                m.bestDifficulty, m.temperature, m.lastShare, m.uptime, m.addedAt,
                m.consecutiveFailures, m.lastSuccessTime, m.nextRetryTime)
  }

  /** The record `loadSavedMiners` rebuilds: the stored fields, an empty
      history, and `lastSuccessTime || null`, which turns a stored 0 into
      "never". */
  function Restore(s: StoredMiner): (m: Miner)
    ensures Project(m) == s.(lastSuccessTime := if s.lastSuccessTime == Some(0) then None else s.lastSuccessTime)
    ensures m.history == EmptyHistory
  {
    Miner(s.id, s.ip, s.name, s.status, s.hashrate, s.shares, s.acceptedShares,
          s.bestDifficulty, s.lastShare, s.uptime, s.temperature, s.addedAt,
          s.consecutiveFailures,
          if s.lastSuccessTime == Some(0) then None else s.lastSuccessTime,
          s.nextRetryTime, EmptyHistory)
  }

  /** What survives a save and a load: the record without its chart history,
      with a success time of 0 read back as "never". */
  function Normalize(m: Miner): Miner {
    m.(history := EmptyHistory,
       lastSuccessTime := if m.lastSuccessTime == Some(0) then None else m.lastSuccessTime)
  }

  function ProjectAll(ms: seq<Miner>): (ss: seq<StoredMiner>)
    ensures |ss| == |ms| && forall i :: 0 <= i < |ms| ==> ss[i] == Project(ms[i])
  {
    seq(|ms|, i requires 0 <= i < |ms| => Project(ms[i]))
  }

  function RestoreAll(ss: seq<StoredMiner>): (ms: seq<Miner>)
    ensures |ms| == |ss| && forall i :: 0 <= i < |ss| ==> ms[i] == Restore(ss[i])
  {
    seq(|ss|, i requires 0 <= i < |ss| => Restore(ss[i]))
  }

  /** `saveMiners()`: overwrites the registry key and nothing else. */
  function SaveMiners(ms: seq<Miner>, store: Store): (r: Store)
    ensures r.Keys == store.Keys + {MinersKey}
    ensures forall k :: k in store && k != MinersKey ==> r[k] == store[k]
    ensures r[MinersKey].Records? && |r[MinersKey].entries| == |ms|
    ensures forall i :: 0 <= i < |ms| ==> r[MinersKey].entries[i] == Project(ms[i])
  {
    store[MinersKey := Records(ProjectAll(ms))]
  }

  /** `loadSavedMiners()` into the registry `current`: a missing or
      unreadable key leaves it as it is; otherwise the stored records are
      appended in their stored order. */
  function LoadSavedMiners(current: seq<Miner>, store: Store): (r: seq<Miner>)
    ensures MinersKey !in store || store[MinersKey].Unparsable? ==> r == current
    ensures MinersKey in store && store[MinersKey].Records? ==>
      var es := store[MinersKey].entries;
      && |r| == |current| + |es| && r[..|current|] == current
      && forall i :: 0 <= i < |es| ==>
           Project(r[|current| + i]) == es[i].(lastSuccessTime := Restore(es[i]).lastSuccessTime)
           && r[|current| + i].history == EmptyHistory
  {
    if MinersKey in store && store[MinersKey].Records? then
      current + RestoreAll(store[MinersKey].entries)
    else current
  }

  /** Loading what was saved gives back the saved records, up to the chart
      histories and a success time of 0, after whatever was loaded before. */
  lemma LoadAfterSave(ms: seq<Miner>, store: Store, current: seq<Miner>)
    ensures var r := LoadSavedMiners(current, SaveMiners(ms, store));
      |r| == |current| + |ms| && r[..|current|] == current
      && forall i :: 0 <= i < |ms| ==> r[|current| + i] == Normalize(ms[i])
  {
    var r := LoadSavedMiners(current, SaveMiners(ms, store));
    forall i | 0 <= i < |ms| ensures r[|current| + i] == Normalize(ms[i]) {
      assert r[|current| + i] == Restore(Project(ms[i]));
    }
  }

  /** Records without chart data and without a zero success time survive a
      save and a load into an empty registry exactly. */
  lemma SaveLoadRoundTrip(ms: seq<Miner>, store: Store)
    requires forall i :: 0 <= i < |ms| ==> ms[i].history == EmptyHistory && ms[i].lastSuccessTime != Some(0)
    ensures LoadSavedMiners([], SaveMiners(ms, store)) == ms
  {
    LoadAfterSave(ms, store, []);
    var r := LoadSavedMiners([], SaveMiners(ms, store));
    assert forall i :: 0 <= i < |ms| ==> r[i] == Normalize(ms[i]) == ms[i];
  }

  /** Saving twice is saving once: the second save sees its own output. */
  lemma SaveIdempotent(ms: seq<Miner>, store: Store)
    ensures SaveMiners(ms, SaveMiners(ms, store)) == SaveMiners(ms, store)
  {
  }

  /** Restoring forgets only what `Normalize` forgets. */
  lemma NormalizeIdempotent(m: Miner)
    ensures Normalize(Normalize(m)) == Normalize(m)
    ensures Restore(Project(m)) == Normalize(m)
  {
  }

  // ---------------------------------------------------------------------
  // The addresses the historical-data loader asks for (script.js:704-710)
  // ---------------------------------------------------------------------

  /** `JSON.parse(localStorage.getItem(key) || '[]')` mapped to addresses:
      a missing key reads as the empty list and an unparsable one fails. */
  function AddressesUnder(store: Store, key: string): (r: Option<seq<string>>)
    ensures key !in store ==> r == Some([])
    ensures key in store ==> (r.None? <==> store[key].Unparsable?)
    ensures key in store && store[key].Records? ==>
      |r.value| == |store[key].entries| && forall i :: 0 <= i < |r.value| ==> r.value[i] == store[key].entries[i].ip
  {
    if key !in store then Some([])
    else match store[key]
      case Unparsable => None
      case Records(es) => Some(seq(|es|, i requires 0 <= i < |es| => es[i].ip))
  }

  /** The historical loader as written: it reads a key no code writes. */
  function HistoricalAddressesAsWritten(store: Store): Option<seq<string>> {
    AddressesUnder(store, LegacyMinersKey)
  }

  /** The historical loader reading the key `saveMiners` writes. */
  function HistoricalAddresses(store: Store): Option<seq<string>> {
    AddressesUnder(store, MinersKey)
  }

  function Addresses(ms: seq<Miner>): (ips: seq<string>)
    ensures |ips| == |ms| && forall i :: 0 <= i < |ms| ==> ips[i] == ms[i].ip
  {
    seq(|ms|, i requires 0 <= i < |ms| => ms[i].ip)
  }

  /** As written, after the registry is saved into an empty storage, the
      historical loader finds no miner at all. */
  lemma HistoricalLoaderMissesSavedMiners(ms: seq<Miner>)
    requires |ms| > 0
    ensures HistoricalAddressesAsWritten(SaveMiners(ms, map[])) == Some([])
    ensures HistoricalAddresses(SaveMiners(ms, map[])) != Some([])
  {
    var s := SaveMiners(ms, map[]);
    assert LegacyMinersKey != MinersKey by {
      assert |LegacyMinersKey| != |MinersKey|;
    }
    assert LegacyMinersKey !in s;
  }

  /** Reading the saved key, the historical loader asks for exactly the
      saved addresses, in registry order. */
  lemma HistoricalAddressesFollowSave(ms: seq<Miner>, store: Store)
    ensures HistoricalAddresses(SaveMiners(ms, store)) == Some(Addresses(ms))
  {
    var r := HistoricalAddresses(SaveMiners(ms, store));
    assert r.Some?;
    assert r.value == Addresses(ms);
  }
}
