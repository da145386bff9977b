/** The page around the registry: what `addMiner` (script.js:194-241),
    `removeMiner` (script.js:243-257) and `loadSavedMiners`
    (script.js:804-828) do besides changing the list of miners. Each
    rendered miner gets a card, and a chart inside the card; a change to the
    list is saved to storage (`saveMiners`), and `updateTotalStats`
    (script.js:578-592) pushes one sample onto the fleet chart through
    `updateTotalChart` (script.js:435-456) when that chart exists.

    The labelling clock (`toLocaleTimeString`) is the parameter `stamp`. */
module Dashboard {
  import opened Wrappers
  import opened Records
  import opened Ring
  import opened Registry
  import opened Storage
  import opened Aggregate

  /** The registry, the storage, the fleet chart (and whether it exists),
      the ids of the miners whose card is on the page, and the ids that
      have a chart (`minerCharts`). */
  datatype Page = Page(
    miners: seq<Miner>,
    store: Store,
    totalChart: History,
    totalChartReady: bool,
    cards: set<int>,
    charts: set<int>)

  /** The storage holds the registry as it is: saving now would change
      nothing. */
  predicate InStorage(p: Page) {
    SaveMiners(p.miners, p.store) == p.store
  }

  /** A chart is drawn on a canvas inside its miner's card. */
  predicate ChartsInCards(p: Page) {
    p.charts <= p.cards
  }

  /** The fleet chart after `updateTotalChart`: one more sample, the online
      hashrate of the current registry, when the chart exists. */
  function UpdateTotalStats(p: Page, stamp: string): (r: Page)
    ensures r == p.(totalChart := r.totalChart)
    ensures p.totalChartReady ==> r.totalChart == Push(p.totalChart, stamp, TotalStats(p.miners).hashrate)
    ensures !p.totalChartReady ==> r.totalChart == p.totalChart
  {
    if p.totalChartReady then p.(totalChart := Push(p.totalChart, stamp, OnlineHashrate(p.miners)))
    else p
  }

  /** `addMiner()` on the page: a refused request changes nothing at all;
      an accepted one renders the card and chart, saves, and updates the
      totals. */
  function AddToPage(p: Page, rawIp: string, rawName: string, now: int, addedAt: string,
                     stamp: string): (r: Page)
    ensures AddMiner(p.miners, rawIp, rawName, now, addedAt).rejected.Some? ==> r == p
    ensures AddMiner(p.miners, rawIp, rawName, now, addedAt).rejected.None? ==>
      && r.miners == AddMiner(p.miners, rawIp, rawName, now, addedAt).miners
      && r.store == SaveMiners(r.miners, p.store)
      && r.cards == p.cards + {now} && r.charts == p.charts + {now}
      && r.totalChartReady == p.totalChartReady
      && (p.totalChartReady ==> r.totalChart == Push(p.totalChart, stamp, TotalStats(r.miners).hashrate))
      && (!p.totalChartReady ==> r.totalChart == p.totalChart)
  {
    var o := AddMiner(p.miners, rawIp, rawName, now, addedAt);
    if o.rejected.Some? then p
    else
      UpdateTotalStats(p.(miners := o.miners, store := SaveMiners(o.miners, p.store),
                          cards := p.cards + {now}, charts := p.charts + {now}), stamp)
  }

  /** `removeMiner(id)` on the page: a declined confirmation changes
      nothing; otherwise the card and chart go, the registry is saved and
      the totals are updated. */
  function RemoveFromPage(p: Page, id: int, confirmed: bool, stamp: string): (r: Page)
    ensures !confirmed ==> r == p
    ensures confirmed ==>
      && r.miners == RemoveMiner(p.miners, id, true)
      && r.store == SaveMiners(r.miners, p.store)
      && r.cards == p.cards - {id} && r.charts == p.charts - {id}
      && r.totalChartReady == p.totalChartReady
      && (p.totalChartReady ==> r.totalChart == Push(p.totalChart, stamp, TotalStats(r.miners).hashrate))
      && (!p.totalChartReady ==> r.totalChart == p.totalChart)
  {
    if !confirmed then p
    else
      var ms := RemoveMiner(p.miners, id, true);
      UpdateTotalStats(p.(miners := ms, store := SaveMiners(ms, p.store),
                          cards := p.cards - {id}, charts := p.charts - {id}), stamp)
  }

  /** The ids of the stored records. */
  function StoredIds(es: seq<StoredMiner>): (ids: set<int>)
    ensures forall i :: 0 <= i < |es| ==> es[i].id in ids
    ensures forall id :: id in ids ==> exists i :: 0 <= i < |es| && es[i].id == id
  {
    set i | 0 <= i < |es| :: es[i].id
  }

  /** `loadSavedMiners()` on the page: with nothing readable stored,
      nothing changes and the totals are not touched; otherwise every
      stored record is appended and rendered, and the totals are updated.
      Loading does not write to storage. */
  function LoadIntoPage(p: Page, stamp: string): (r: Page)
    ensures MinersKey !in p.store || p.store[MinersKey].Unparsable? ==> r == p
    ensures MinersKey in p.store && p.store[MinersKey].Records? ==>
      var ids := StoredIds(p.store[MinersKey].entries);
      && r.miners == LoadSavedMiners(p.miners, p.store)
      && r.store == p.store
      && r.cards == p.cards + ids && r.charts == p.charts + ids
      && r.totalChartReady == p.totalChartReady
      && (p.totalChartReady ==> r.totalChart == Push(p.totalChart, stamp, TotalStats(r.miners).hashrate))
      && (!p.totalChartReady ==> r.totalChart == p.totalChart)
  {
    if MinersKey in p.store && p.store[MinersKey].Records? then
      var ids := StoredIds(p.store[MinersKey].entries);
      UpdateTotalStats(p.(miners := LoadSavedMiners(p.miners, p.store),
                          cards := p.cards + ids, charts := p.charts + ids), stamp)
    else p
  }

  // ---------------------------------------------------------------------
  // Properties
  // ---------------------------------------------------------------------

  /** After an accepted add or a confirmed removal the storage holds the
      new registry, and a storage that held the old one still holds the
      current one whatever happened. */
  lemma AddKeepsStorage(p: Page, rawIp: string, rawName: string, now: int, addedAt: string, stamp: string)
    ensures var r := AddToPage(p, rawIp, rawName, now, addedAt, stamp);
      (InStorage(p) || AddMiner(p.miners, rawIp, rawName, now, addedAt).rejected.None?) ==> InStorage(r)
  {
    var r := AddToPage(p, rawIp, rawName, now, addedAt, stamp);
    if AddMiner(p.miners, rawIp, rawName, now, addedAt).rejected.None? {
      SaveIdempotent(r.miners, p.store);
    }
  }

  lemma RemoveKeepsStorage(p: Page, id: int, confirmed: bool, stamp: string)
    ensures var r := RemoveFromPage(p, id, confirmed, stamp);
      (InStorage(p) || confirmed) ==> InStorage(r)
  {
    var r := RemoveFromPage(p, id, confirmed, stamp);
    if confirmed {
      SaveIdempotent(r.miners, p.store);
    }
  }

  /** What the storage holds is what a reload into an empty page rebuilds:
      the registry, each record without its chart and with a zero success
      time read as "never". */
  lemma StorageReloads(p: Page)
    requires InStorage(p)
    ensures var loaded := LoadSavedMiners([], p.store);
      |loaded| == |p.miners| && forall i :: 0 <= i < |p.miners| ==> loaded[i] == Normalize(p.miners[i])
  {
    var loaded := LoadSavedMiners([], SaveMiners(p.miners, p.store));
    LoadAfterSave(p.miners, p.store, []);
    assert forall i :: 0 <= i < |p.miners| ==> loaded[0 + i] == Normalize(p.miners[i]);
    assert loaded == LoadSavedMiners([], p.store);
  }

  /** The ids a load appends to the registry are the ids of the stored
      records. */
  lemma AppendedIdsAreStored(current: seq<Miner>, es: seq<StoredMiner>, loaded: seq<Miner>)
    requires |loaded| == |current| + |es|
    requires forall i :: 0 <= i < |es| ==> loaded[|current| + i].id == es[i].id
    ensures (set i | |current| <= i < |loaded| :: loaded[i].id) == StoredIds(es)
  {
    var appended := set i | |current| <= i < |loaded| :: loaded[i].id;
    forall id | id in appended ensures id in StoredIds(es) {
      var i :| |current| <= i < |loaded| && loaded[i].id == id;
      assert loaded[|current| + (i - |current|)].id == es[i - |current|].id;
    }
    forall id | id in StoredIds(es) ensures id in appended {
      var j :| 0 <= j < |es| && es[j].id == id;
      assert loaded[|current| + j].id == id;
    }
  }

  /** What a readable key appends to the registry carries the stored ids. */
  lemma LoadAppendsStoredIds(current: seq<Miner>, store: Store)
    requires MinersKey in store && store[MinersKey].Records?
    ensures var loaded := LoadSavedMiners(current, store);
      (set i | |current| <= i < |loaded| :: loaded[i].id) == StoredIds(store[MinersKey].entries)
  {
    var es := store[MinersKey].entries;
    var loaded := LoadSavedMiners(current, store);
    forall i | 0 <= i < |es| ensures loaded[|current| + i].id == es[i].id {
      assert Project(loaded[|current| + i]) == es[i].(lastSuccessTime := Restore(es[i]).lastSuccessTime);
    }
    assert |loaded| == |current| + |es|;
    AppendedIdsAreStored(current, es, loaded);
  }

  /** A load renders a card and a chart for exactly the records it appends
      to the registry, and for nothing else. */
  lemma LoadRendersAppended(p: Page, stamp: string)
    ensures var r := LoadIntoPage(p, stamp);
      var appended := set i | |p.miners| <= i < |r.miners| :: r.miners[i].id;
      && r.cards == p.cards + appended
      && r.charts == p.charts + appended
  {
    var r := LoadIntoPage(p, stamp);
    if MinersKey in p.store && p.store[MinersKey].Records? {
      LoadAppendsStoredIds(p.miners, p.store);
      assert r.miners == LoadSavedMiners(p.miners, p.store);
    } else {
      assert r == p;
    }
  }

  /** Every page operation keeps each chart inside a card on the page. */
  lemma PageKeepsChartsInCards(p: Page, rawIp: string, rawName: string, now: int, addedAt: string,
                               id: int, confirmed: bool, stamp: string)
    requires ChartsInCards(p)
    ensures ChartsInCards(AddToPage(p, rawIp, rawName, now, addedAt, stamp))
    ensures ChartsInCards(RemoveFromPage(p, id, confirmed, stamp))
    ensures ChartsInCards(LoadIntoPage(p, stamp))
  {
  }

  /** An accepted add appends exactly one sample to an existing fleet
      chart that is not yet full: the new registry's online hashrate. */
  lemma OneTotalSamplePerChange(p: Page, rawIp: string, rawName: string, now: int, addedAt: string, stamp: string)
    requires p.totalChartReady && WellFormed(p.totalChart) && |p.totalChart.labels| < MaxDataPoints
    requires AddMiner(p.miners, rawIp, rawName, now, addedAt).rejected.None?
    ensures var r := AddToPage(p, rawIp, rawName, now, addedAt, stamp);
      && r.totalChart.labels == p.totalChart.labels + [stamp]
      && r.totalChart.hashrate == p.totalChart.hashrate + [OnlineHashrate(r.miners)]
  {
  }
}
