# NerdMiner status dashboard — a Dafny model of its decision logic

The NerdMiner dashboard has two parts:

- **A browser script (`script.js`).** It keeps a registry of small Bitcoin
  miners. Every five seconds it polls each miner through a local proxy. A
  failed request is retried with exponential back-off, and a miner that
  keeps failing is put into a growing cool-down. The script keeps a rolling
  20-point chart per miner and a fleet total. The registry is saved in the
  browser's local storage.
- **A small Python server (`server.py`).** It serves the page and proxies
  requests. It scrapes each miner's HTML status page into numbers, caches
  every scrape for five seconds, falls back to the last scrape when a miner
  does not answer, and forwards wallet look-ups to the right pool API.

The model states the decisions both programs make as pure Dafny functions
(plus one loop for the sweep), and proves properties of them:

- which addresses are accepted;
- how many requests a fetch makes and when;
- what a failure does to the back-off fields;
- which miners a sweep skips;
- what the totals mean;
- what survives a save and a load;
- that at most one polling interval runs;
- which port the server listens on;
- what the scraper reads from a page;
- when the cache answers;
- which URL a pool query goes to.

The network, the clock, timers and `toLocaleTimeString` become parameters:

- an oracle that gives each request's duration and reply;
- an explicit start time;
- a labelling function.

Modules, one per concern:

| module | file | models |
|---|---|---|
| `Wrappers` | wrappers.dfy | `Option` and `Result` |
| `Text` | text.dfy | digits, `trim`/`strip`, ASCII lower-casing, substring search, `split`/`join` |
| `Address` | address.dfy | `isValidIP` |
| `Records` | records.dfy | the configuration constants and the miner record |
| `Ring` | ring.dfy | the 20-point chart buffer |
| `Registry` | registry.dfy | `addMiner`, `removeMiner` on the list of miners |
| `Fetcher` | fetcher.dfy | `fetchMinerData` with retries and back-off |
| `Aggregate` | aggregate.dfy | `updateTotalStats` |
| `Storage` | storage.dfy | `saveMiners`, `loadSavedMiners`, the historical loader's key |
| `Sweep` | sweep.dfy | `updateMinerData`, `updateAllMiners` |
| `Dashboard` | dashboard.dfy | what adding, removing and loading do to storage, cards, charts and the fleet chart |
| `Timer` | timer.dfy | `startAutoUpdate`, `handleTimeRangeChange` |
| `PortArg` | port.dfy | the port argument of the server |
| `Scraper` | scraper.dfy | `NerdMinerHTMLParser` |
| `MinerCache` | cache.dfy | `fetch_miner_with_cache` |
| `PoolApi` | pool.dfy | the `/pool-api` URL construction |

## Model

| member | source | states |
|---|---|---|
| Address.IsValidIPIffDottedQuad | script.js:831-840 | an address is accepted exactly when it splits on '.' into four groups of one to three ASCII digits, each at most 255 |
| Address.MatchGroupsIffSplit | script.js:832-833 | the pattern `^(\d{1,3}\.){3}\d{1,3}$` (for any number of groups) matches exactly the strings whose '.'-split has that many parts, each of one to three digits |
| Address.FormattedAddressIsValid | script.js:831-840 | four numbers in 0..255 written in decimal and joined with dots always form an accepted address |
| Registry.AddMiner | script.js:194-241 | an empty trimmed address, an address failing `isValidIP` and an already-registered address are each refused, exactly in those cases, with the registry unchanged; otherwise one record is appended with the clock as id, a `Miner-<ip>` name when the name is blank, and online status, zero failures, no cool-down and an empty chart |
| Registry.RemoveMiner | script.js:243-257 | a declined confirmation changes nothing; a confirmed removal leaves no record with that id and keeps every other record |
| Registry.WithoutConcat | script.js:246 | filtering a concatenation filters each part in order, so the surviving records keep their relative order |
| Registry.AddThenRemove | script.js:194-257 | when the clock reading used as id is not already an id, removing the miner just added by that id gives back the registry as it was, whether or not the add was refused |
| Registry.WithoutAbsent | script.js:246 | removing an id that no record carries changes nothing |
| Registry.AddPreservesUniqueness | script.js:208-233 | adding keeps addresses unique, and keeps ids unique when the clock reading is not already an id |
| Registry.WithoutPreservesUniqueness | script.js:246 | removal keeps addresses and ids unique |
| Dashboard.UpdateTotalStats | script.js:578-592 | only the fleet chart changes: when it exists it gets one sample, the online hashrate of the registry |
| Dashboard.AddToPage | script.js:194-241 | a refused add changes nothing on the page; an accepted one sets the new registry, saves it, adds the miner's card and chart, and pushes the new online hashrate onto an existing fleet chart |
| Dashboard.RemoveFromPage | script.js:243-257 | a declined removal changes nothing; a confirmed one sets the filtered registry, saves it, drops the miner's card and chart, and pushes the new online hashrate onto an existing fleet chart |
| Dashboard.LoadAppendsStoredIds | script.js:808-821 | the records a readable key appends to the registry carry exactly the ids of the stored records |
| Dashboard.LoadRendersAppended | script.js:809-822 | a load adds a card and a chart for exactly the records it appends to the registry (`renderMiner` right after `miners.push`), and for no other id |
| Dashboard.LoadIntoPage | script.js:804-828 | nothing readable in storage leaves the page alone; otherwise the stored records are appended, their cards and charts added and the fleet chart pushed, and storage is not written |
| Dashboard.AddKeepsStorage | script.js:234-236 | after an accepted add, storage holds the new registry; a storage that held the old registry still holds it after a refused add |
| Dashboard.RemoveKeepsStorage | script.js:243-256 | after a confirmed removal, storage holds the new registry; a storage that held the old registry still holds it after a declined one |
| Dashboard.StorageReloads | script.js:779-828 | when storage holds the registry, a reload into an empty page rebuilds every record, minus its chart and with a zero success time read as "never" |
| Dashboard.PageKeepsChartsInCards | script.js:234-305 | adding, removing and loading keep every chart inside a card on the page |
| Dashboard.OneTotalSamplePerChange | script.js:235-236 | an accepted add appends exactly one sample to an existing fleet chart that is not full: the new online hashrate |
| Ring.Push | script.js:422-428 | one push keeps both sequences the same length and at most 20 long, makes the new label and value the last entries, appends when there is room, and otherwise drops exactly the oldest entry |
| Ring.PushAllKeepsLatest | script.js:415-433 | after any number of pushes the buffer holds exactly the most recent 20 samples in arrival order |
| Fetcher.ParsePayload | script.js:482-491 | a reply becomes an online observation; each metric falls back to 0 when missing; the temperature is truncated toward zero; accepted shares come from `acceptedShares`, else `valids`, else 95% of the shares rounded down, where 0 counts as missing |
| Fetcher.NinetyFivePercent | script.js:486 | the estimate `r` satisfies `100r <= 95·shares < 100r + 100`, i.e. it is the floor of 95% of the shares |
| Fetcher.Cooldown | script.js:504-506 | the cool-down is one minute per consecutive failure, capped at five minutes |
| Fetcher.FetchFrom | script.js:458-519 | started at retry `k`, the fetch makes requests `k`, `k+1`, … until one succeeds or retry 2 fails; the waits are `1000·2^j` for the retries taken; the clock advances by request durations plus waits; a success resets the failure count and cool-down and stamps the success time; a final failure adds one failure and sets the cool-down from the end time; every other field is untouched |
| Fetcher.FetchMinerData | script.js:458-519 | a fetch makes one to three requests, all but the last failing; it is online exactly when the last request succeeded, with the success bookkeeping, and otherwise offline after exactly three requests, with the failure bookkeeping |
| Fetcher.SuccessStopsRetrying | script.js:458-502 | when request `k` is the first to succeed and `k <= 2`, the fetch makes exactly `k+1` requests and reports that reply; when no request up to retry 2 succeeds, it reports offline |
| Fetcher.BackoffBookkeeping | script.js:476-506 | a success zeroes the failure count and the cool-down; a failure adds exactly one failure and sets a cool-down of `min(failures, 5)` minutes from the end time; the id, address and chart are untouched |
| Fetcher.DerivedAcceptedShares | script.js:482-491 | a reply `{hashrate: 523.4, shares: 100}` gives an online observation with 95 accepted shares |
| Fetcher.OfflineIffAllAttemptsFail | script.js:494-517 | a fetch reports offline exactly when all three requests fail, and the waits are then 1000 ms and 2000 ms |
| Fetcher.FetchDurationBound | script.js:463-467 | with every request cut off at the 20 s timeout, a fetch ends no earlier than it starts and at most 3·20 s + 3 s later |
| Aggregate.CountOnline | script.js:580 | the online count is at most the fleet size, equals it exactly when every miner is online, and is 0 exactly when every miner is offline |
| Aggregate.TotalStats | script.js:578-583 | `active + offline == total` with `total` the fleet size; nobody is offline exactly when all are online, and nobody is active exactly when all are offline |
| Aggregate.FilterThenReduce | script.js:580-582 | the online count is the length of the online sub-list, and the total hashrate is the hashrate summed over that sub-list |
| Aggregate.TotalsConcat | script.js:579-583 | every total of a concatenated fleet is the sum of the totals of its parts |
| Aggregate.AllOfflineNoHashrate | script.js:582 | an entirely offline fleet has total hashrate 0 and all miners counted offline |
| Aggregate.NonNegativeHashrate | script.js:582 | with non-negative hashrates the total hashrate is non-negative |
| Aggregate.HashrateDominates | script.js:582 | with non-negative hashrates, the total is at least any single online miner's hashrate |
| Storage.Restore | script.js:809-819 | a loaded record carries every stored field, with a stored success time of 0 read as "never" and an empty chart |
| Storage.SaveMiners | script.js:779-802 | saving overwrites the registry key with one stored record per miner, in order, and leaves every other key alone |
| Storage.LoadSavedMiners | script.js:804-828 | a missing or unparsable key leaves the registry alone; otherwise the stored records are appended in stored order with empty charts |
| Storage.SaveIdempotent | script.js:779-802 | saving the same registry twice stores what saving once does |
| Storage.NormalizeIdempotent | script.js:779-819 | a record read back after saving loses only its chart and a zero success time, and doing that twice loses nothing more |
| Storage.LoadAfterSave | script.js:779-828 | loading what was saved appends the saved records, up to their chart histories and a zero success time |
| Storage.SaveLoadRoundTrip | script.js:779-828 | records without chart data or a zero success time survive a save and a load into an empty registry exactly |
| Storage.HistoricalLoaderMissesSavedMiners | script.js:704 | as written, after the registry is saved into empty storage, the historical loader finds no miners, while reading the saved key it would |
| Storage.HistoricalAddressesFollowSave | script.js:704-710 | reading the key that saving writes, the historical loader asks for exactly the saved addresses, in registry order |
| Sweep.Apply | script.js:541-549 | applying an observation makes the record display exactly that observation and leaves every other field alone |
| Sweep.UpdateMinerData | script.js:522-576 | an update fetches, copies the observation onto the record, keeps the fetch's back-off fields, pushes the new hashrate when the miner has a chart (stamped with the fetch's end time), and sends the observation for storage |
| Sweep.Visit | script.js:596-617 | a miner is skipped exactly when it has a cool-down that has not yet expired; otherwise it is polled, and the stagger wait follows every polled miner except the last index |
| Sweep.SweptPrefixSnoc | script.js:596-617 | visiting the next miner at the time the previous visit left off extends a correctly recorded sweep by one step |
| Sweep.UpdateAllMiners | script.js:594-621 | the sweep visits every miner in index order, each at the time the previous visit ended; the records afterwards are the visit outcomes; the totals are computed over them; the total chart is pushed (if it exists) with the end time; the saved registry is the new one |
| Sweep.UpdateSettles | script.js:476-506 | whatever state a record was in, a poll started at a non-negative time leaves it online exactly when it has no failures and with a cool-down exactly when it has failures, and keeps its identity and a well-formed chart |
| Sweep.ResumeNotBefore | script.js:596-617 | the sweep moves on from a miner no earlier than it reached it |
| Sweep.ClockNeverRunsBack | script.js:594-617 | every visit of a sweep starts no earlier than the sweep |
| Sweep.SweepKeepsRegistry | script.js:594-621 | a sweep changes neither the registered addresses nor their order, and keeps addresses and ids unique |
| Sweep.SweepPreservesInvariants | script.js:594-621 | a sweep started at a non-negative time keeps every record's identity, settled back-off state and well-formed chart, and leaves a skipped miner exactly as it was |
| Sweep.NewMinerSettled | script.js:213-231 | a freshly added record is online, with no failures and no cool-down |
| Sweep.UpdateMinerDataAsWritten | script.js:522-576 | as written, an update throws exactly when the miner's card is on the page; the record, its back-off fields and the stored row are updated either way; with the card shown the chart is never pushed |
| Sweep.AsWrittenDropsChartPush | script.js:565-575 | the update as written is the intended update with the chart push removed whenever the card is on the page |
| Sweep.CardedPollLosesSample | script.js:569-575 | a miner with its card and chart on the page, polled once with an empty chart, keeps an empty chart as written, while the intended update records one sample |
| Sweep.VisitAsWritten | script.js:596-617 | as written, the sweep skips exactly the miners in cool-down; the update's error is caught and the stagger wait still follows every polled miner except the last index |
| Sweep.AsWrittenVisitIsChartless | script.js:565-617 | when a charted miner always has its card, a visit as written is the intended visit with no chart |
| Sweep.AsWrittenSweepKeepsCharts | script.js:565-617 | when every chart sits in a card, a sweep as written leaves every miner's chart as it was, so charts that start empty stay empty |
| Timer.ClearCurrent | script.js:625-628 | clearing stops the recorded interval (if any) and leaves the recorded handle in place |
| Timer.StartAutoUpdate | script.js:623-646 | starting always clears the running interval first; in history mode nothing runs and no sweep starts; otherwise one sweep starts and exactly one new interval runs |
| Timer.HandleTimeRangeChange | script.js:649-667 | selecting `live` leaves history mode and restarts exactly one interval with an immediate sweep; any other range enters history mode with no interval running |
| Timer.StartPreservesWf | script.js:623-646 | starting keeps the timer coherent: at most the recorded interval runs, and none in history mode |
| Timer.RangeChangePreservesWf | script.js:649-667 | a range selection keeps the timer coherent |
| Timer.DoubleStartLeavesOne | script.js:623-646 | two page-load starts in a row leave only the second interval running |
| Timer.AtMostOneInterval | script.js:623-667 | whatever sequence of page loads and range selections happens, at most one interval runs, and none in history mode |
| PortArg.PyInt | server.py:25 | an integer is read only from non-blank text, and a plain digit string reads as its decimal value |
| PortArg.PortFromArgs | server.py:19-35 | the port is always in 1..65535; it differs from 8000 only when the first argument is an integer in range, which is then used; with no argument or a non-integer, the port is 8000 |
| PortArg.DecimalPortRoundTrip | server.py:23-35 | any port in 1..65535 written in decimal is the port used |
| PortArg.PaddingIgnored | server.py:25 | whitespace around the argument changes neither the integer read nor the port |
| PortArg.PythonSpellingsAccepted | server.py:25 | `+8_080` is read as port 8080 |
| PortArg.WordFallsBack | server.py:31-35 | a non-numeric argument falls back to 8000 |
| PortArg.DoubledUnderscoreFallsBack | server.py:31-35 | `80__80` is not an integer and falls back to 8000 |
| PortArg.OutOfRangeFallsBack | server.py:26-30 | ports 0 and 70000 fall back to 8000 |
| Scraper.AttrValue | server.py:55-59 | the attribute value looked up is the one on the last attribute with that name, and is missing exactly when no attribute has that name |
| Scraper.HandleStartTag | server.py:55-59 | a start tag enters a value span exactly when it is a `span` whose class is exactly `val`, and leaves the data and the heading alone |
| Scraper.HandleEndTag | server.py:61-63 | any closing `span`, and only that, leaves the value span |
| Scraper.Classify | server.py:71-99 | the heading is tested in order: hash rate, then accepted and share, then best and diff, then temp; each branch is taken exactly when its words occur and no earlier branch applies |
| Scraper.ToHashesPerSecond | server.py:74-83 | after `lower()`, a `kh/s` value is multiplied by 1000 and an `mh/s` value by 1,000,000; anything else is taken as H/s. The unit may be in any case, and a Kelvin sign counts as `k` |
| Scraper.KelvinKiloScaled | server.py:74-80 | `12.5` with the unit written Kelvin sign + `H/s` is scaled to 12500 H/s, as `lower()` gives `kh/s` |
| Scraper.Store | server.py:71-107 | a value changes only the field its heading names; a hashrate is stored scaled to H/s, an accepted-shares value sets both share counters to the same integer, a best difficulty is stored as its `float()` value, and a temperature as the converted and rounded value; a value whose pattern finds nothing, or one under an unrecognised heading, stores nothing; a number `float()` rejects makes the parse fail, and nothing else does |
| Scraper.HandleData | server.py:65-110 | blank text is ignored entirely; outside a value span, text only becomes the new heading; inside one, the value is stored according to the previous heading and the text becomes the new heading |
| Scraper.FeedKeepsScrapedShape | server.py:86-90 | over a whole page the two share counters stay equal, and `valids` and `uptime` are never set |
| Scraper.NoValueSpanNoData | server.py:58-59 | a page that never opens `<span class="val">` yields no data and never fails |
| Scraper.KiloHashesScaled | server.py:73-83 | `12.5 KH/s` under the heading `Hash Rate` is read as 12500 H/s |
| MinerCache.FetchMinerWithCache | server.py:113-145 | an entry younger than five seconds answers without a fetch and without changing the cache; otherwise a successful scrape is returned and recorded with the current time, other addresses untouched; a failure serves any older entry with the cache unchanged; the error propagates exactly when there is no entry to fall back on |
| MinerCache.FetchThenHit | server.py:117-134 | after a fresh scrape at time `t`, any request for the same address before `t + 5` is answered from the cache with that data, whatever the miner would send |
| MinerCache.ExpiredEntryRefreshed | server.py:118-134 | once an entry is five seconds old, a successful scrape replaces it |
| MinerCache.ServedIsScraped | server.py:113-145 | every payload the cache serves or keeps has equal share counters and no `valids` or `uptime` |
| MinerCache.ProxiedSharesAgree | server.py:86-90 | a scraped payload always shows as many accepted shares as shares in the browser, and an uptime of 0 |
| PoolApi.WithDefaultPort | server.py:184-185 | `:3333` is appended exactly when the pool names no port |
| PoolApi.WithDefaultPortIdempotent | server.py:184-185 | the default port is appended at most once |
| PoolApi.PoolUrl | server.py:178-189 | a pool containing `public-pool.io` gets `https://{pool}/api/client/{wallet}`; otherwise one containing `nerdminer` in any case gets `http://{pool with port}/api/stats/{wallet}`; otherwise `https://{pool}/api/client/{wallet}` |
| PoolApi.PoolRequest | server.py:167-189 | a query without a wallet is refused, and only such a query; otherwise the URL is built from the wallet and the pool, defaulting to `public-pool.io:40557` |
| PoolApi.PlainHttpIffNerdMiner | server.py:178-189 | the URL is plain HTTP exactly for a NerdMiner pool that is not public-pool.io, and HTTPS otherwise |
| PoolApi.WalletDeterminesUrl | server.py:178-189 | two wallets on the same pool never get the same URL |
| PoolApi.DefaultPoolUrl | server.py:174-180 | with no pool given, the URL is `https://public-pool.io:40557/api/client/{wallet}` |
| PoolApi.NerdMinerUrl | server.py:181-186 | a NerdMiner pool named without a port is asked on port 3333, over plain HTTP, for its stats API |
| PoolApi.NoPublicPool | server.py:178 | `Pool.NerdMiners.org` is not taken for public-pool.io |
| PoolApi.SampleIsNerdMinerPool | server.py:181 | `Pool.NerdMiners.org` is recognised as a NerdMiner pool although its letters differ in case |

## Left out

- DOM, charting and presentation are left out: `renderMiner`, Chart.js set-up, `getChartOptions`, dark mode, `updateUserStats`, `sortMiners`, `toFixed` formatting. They only display the state modelled here; the sort compares with locale rules.
- Real network I/O is a parameter. `fetch`, `AbortSignal.timeout`, `urllib` and the HTTP plumbing of `do_GET`/`do_POST` (including the upstream pool request and its 200/HTTP-error/500 answers after the URL is built) become an oracle giving each request's duration and reply.
- Timers and concurrency are left out. `setTimeout`/`setInterval` are modelled through the explicit clock and the interval bookkeeping of `Timer`. Sweeps that overlap when one outlasts the five-second interval (script.js:640-645) are not modelled: the model treats one sweep as one atomic run.
- database.py and `saveMinerToDatabase`, `loadMinerHistory`, `loadTotalHistory` and `getDatabaseStats` are left out. These are SQLite storage. The sweep records the row it would send (`Sweep.Saved`) and ignores the reply, as the source does.
- Sweep.UpdateMinerData: the `catch` branch of `updateMinerData` (script.js:526-538) is not modelled, because `fetchMinerData` catches every error itself and never throws.
- Sweep.UpdateAllMiners: it sweeps with the intended update, which pushes the miner's chart. As written, the update throws for every polled miner whose card is on the page, and the error reaches the `catch` at script.js:609-611 (see Findings). That sweep is `Sweep.VisitAsWritten` and `Sweep.AsWrittenSweepKeepsCharts`. The two sweeps differ only in the miners' charts, and nothing else in a sweep reads those charts.
- Fetcher.ParsePayload: `parseInt`/`parseFloat` of a JSON number is taken as the number itself, truncated toward zero for `parseInt`. Exponent spellings such as `1e-7`, which `parseInt` reads as 1, and `NaN` are not modelled.
- Fetcher.NinetyFivePercent: `Math.floor(shares * 0.95)` is computed exactly as `floor(95·shares / 100)`. This is what the double product gives for every share count below 2^50. From 2^50 on, the rounded product can reach the next integer and give one more. Past 2^53 the two drift apart in either direction.
- Scraper.HandleData: the regular-expression searches (`([\d.]+)\s*(h/s|kh/s|mh/s)`, `(\d+)`, `([\d.]+)`, and the temperature pattern) are given with each text event, already evaluated. The Fahrenheit-to-Celsius conversion and `round(temp, 1)` (server.py:99-107) are part of that given value.
- Scraper.Feed: `HTMLParser`'s tokenisation of raw HTML is taken as given: the scraper works on the events it would deliver. `parser.close()` is never called by the source, so text still buffered at the end of a page is not delivered in the model either.
- Text.Lower: only `A`-`Z` and the Kelvin sign (U+212A, which `str.lower()` turns into `k`) are lower-cased. Python also lower-cases other letters, but none of them becomes an ASCII letter except U+0130, which becomes `i` followed by a combining dot. So the tests against ASCII words come out as in Python: `hash rate`, `accepted`, `share`, `best`, `diff`, `temp`, `nerdminer`, `kh/s`, `mh/s`. The combining dot blocks any match that continues after the `i`, and none of these words ends in `i`.
- PortArg.PyInt: only ASCII digits are modelled. Python's `int()` also accepts other Unicode decimal digits.
- MinerCache.FetchMinerWithCache: `time.time()` is a real-valued parameter, not an IEEE double.
- The historical view is left out: `loadHistoricalData`, `updateTotalChartWithHistory` and `updateMinerChartWithHistory` (script.js:693-777) beyond the key the loader reads (see Findings). Likewise `generateMockHistory` (randomness) and the disabled `searchWallet`/`fetchWalletData`.
- The total chart's dataset is created lazily on the first push (script.js:445-447). It is modelled as a `History` whose values start empty, which is what the lazy creation produces.
- Dashboard.RemoveFromPage: `removeMiner` is only offered by a miner's own card, so the card lookup at script.js:247 always finds it. A removal without the card, which would throw before saving, is not modelled.
- `saveMiners` and `loadSavedMiners` swallow storage exceptions, such as a quota error. Storage is a map from keys to parsed values. A JSON syntax error, or a JSON value that is not an array, throws before anything is pushed, so it counts as unparsable and leaves the registry unchanged.
- Storage.LoadSavedMiners and Dashboard.LoadIntoPage: a stored array is taken to hold complete records. An array with a `null` element is not modelled: `forEach` (script.js:809-822) pushes and renders every record before the `null`, then reading `consecutiveFailures` of `null` throws, so the registry keeps those records and `updateTotalStats` (script.js:823) is skipped. Elements that are other non-records, such as numbers or partial objects, are not modelled either.
- Timer.HandleTimeRangeChange: only the timer half is modelled. Parsing the hours and loading the history are the historical view above.

## Findings

| source | as written | input that shows it | evidently intended | confidence | as-written member | corrected member |
|---|---|---|---|---|---|---|
| script.js:704 | the historical loader reads the miner list from the storage key `miners`, but `saveMiners` (script.js:798) writes it under `nerdminer-miners`, and nothing writes `miners` | any non-empty registry saved into empty storage: the loader finds an empty list and loads no miner history | read the key `nerdminer-miners`, so the loader asks for the history of every saved miner | not executed | Storage.HistoricalLoaderMissesSavedMiners | Storage.HistoricalAddressesFollowSave |
| script.js:569-571 | `updateMinerData` writes `miner-<id>-shares`, `-diff` and `-temp`, which `renderMiner` (script.js:259-305) never creates. With the card on the page, `getElementById` returns `null` and the write throws, so `updateMinerChart` (script.js:575) is never reached | any miner whose card and chart are on the page, polled once: its chart stays empty | update only the fields the card has, then push the hashrate onto the miner's chart | not executed | Sweep.CardedPollLosesSample | Sweep.UpdateMinerData |
