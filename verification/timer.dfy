/** The auto-update timer of the browser script: `startAutoUpdate`
    (script.js:623-646) and the timer half of `handleTimeRangeChange`
    (script.js:649-690). Interval handles are drawn from a counter, as
    browsers do; `clearInterval` stops a handle but leaves
    `updateIntervalId` pointing at it. */
module Timer {
  import opened Wrappers

  /** `updateIntervalId`, the handles whose interval is still running,
      `isHistoryMode`, and the next handle `setInterval` will return
      (handles are positive). */
  datatype Timer = Timer(intervalId: Option<nat>, active: set<nat>, historyMode: bool, nextHandle: nat)

  /** The state at page load, before `startAutoUpdate` runs. */
  const Initial := Timer(None, {}, false, 1)

  /** The timer is coherent: at most the recorded handle runs, every handle
      ever issued is below the counter, and nothing runs in history mode. */
  predicate Wf(t: Timer) {
    && t.nextHandle >= 1
    && (t.intervalId.Some? ==> 1 <= t.intervalId.value < t.nextHandle)
    && (forall h :: h in t.active ==> t.intervalId == Some(h))
    && (t.historyMode ==> t.active == {})
  }

  /** `clearInterval(updateIntervalId)` guarded by `if (updateIntervalId)`. */
  function ClearCurrent(t: Timer): (r: Timer)
    ensures r.intervalId == t.intervalId && r.historyMode == t.historyMode && r.nextHandle == t.nextHandle
    ensures t.intervalId.None? ==> r.active == t.active
    ensures t.intervalId.Some? ==> r.active == t.active - {t.intervalId.value}
  {
    match t.intervalId
    case None => t
    case Some(h) => t.(active := t.active - {h})
  }

  /** What a timer operation did: the new state, and whether it started a
      sweep right away. */
  datatype Started = Started(timer: Timer, sweepNow: bool)

  /** `startAutoUpdate()`: clears the running interval first; in history
      mode stops there, otherwise runs one sweep now and installs a fresh
      interval. */
  function StartAutoUpdate(t: Timer): (r: Started)
    ensures r.sweepNow <==> !t.historyMode
    ensures r.timer.historyMode == t.historyMode
    ensures Wf(t) && t.historyMode ==> r.timer.active == {}
    ensures Wf(t) && !t.historyMode ==>
      r.timer.active == {t.nextHandle} && r.timer.intervalId == Some(t.nextHandle)
  {
    var cleared := ClearCurrent(t);
    if t.historyMode then Started(cleared, false)
    else
      var h := t.nextHandle;
      Started(cleared.(intervalId := Some(h), active := cleared.active + {h}, nextHandle := h + 1), true)
  }

  /** `handleTimeRangeChange(range)`, timer part: "live" leaves history mode
      and restarts the updates; any other range enters history mode and
      stops the running interval. */
  function HandleTimeRangeChange(t: Timer, range: string): (r: Started)
    ensures r.timer.historyMode <==> range != "live"
    ensures r.sweepNow <==> range == "live"
    ensures Wf(t) && range != "live" ==> r.timer.active == {}
    ensures Wf(t) && range == "live" ==>
      r.timer.active == {t.nextHandle} && r.timer.intervalId == Some(t.nextHandle)
  {
    if range == "live" then StartAutoUpdate(t.(historyMode := false))
    else Started(ClearCurrent(t.(historyMode := true)), false)
  }

  /** A tick of interval `h` starts a sweep exactly when `h` still runs. */
  predicate Fires(t: Timer, h: nat) {
    h in t.active
  }

  lemma StartPreservesWf(t: Timer)
    requires Wf(t)
    ensures Wf(StartAutoUpdate(t).timer)
  {
  }

  lemma RangeChangePreservesWf(t: Timer, range: string)
    requires Wf(t)
    ensures Wf(HandleTimeRangeChange(t, range).timer)
  {
  }

  /** The user's actions on the timer: a page load or a range selection. */
  datatype Event = PageLoad | RangeSelected(range: string)

  function Step(t: Timer, e: Event): Timer {
    match e
    case PageLoad => StartAutoUpdate(t).timer
    case RangeSelected(range) => HandleTimeRangeChange(t, range).timer
  }

  function Replay(t: Timer, es: seq<Event>): Timer
    decreases |es|
  {
    if |es| == 0 then t else Replay(Step(t, es[0]), es[1..])
  }

  /** However the page is used, at most one interval runs, so no two
      intervals can start overlapping sweeps; in history mode none runs. */
  lemma {:induction false} AtMostOneInterval(t: Timer, es: seq<Event>)
    requires Wf(t)
    ensures var r := Replay(t, es);
      Wf(r) && (forall h, g :: Fires(r, h) && Fires(r, g) ==> h == g)
      && (r.historyMode ==> forall h :: !Fires(r, h))
    decreases |es|
  {
    if |es| > 0 {
      match es[0] {
        case PageLoad => StartPreservesWf(t);
        case RangeSelected(range) => RangeChangePreservesWf(t, range);
      }
      AtMostOneInterval(Step(t, es[0]), es[1..]);
    }
  }

  /** Starting twice from page load still leaves exactly one interval. */
  lemma DoubleStartLeavesOne()
    ensures var once := StartAutoUpdate(Initial).timer;
      StartAutoUpdate(once).timer.active == {2} && once.active == {1}
  {
  }
}
