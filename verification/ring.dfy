/** The rolling chart buffer of `updateMinerChart` and `updateTotalChart`
    (script.js:422-428, 441-450): a first-in first-out window of at most
    `MaxDataPoints` samples, kept as two parallel sequences. */
module Ring {
  import opened Records

  /** The two sequences have the same length, within the capacity. */
  predicate WellFormed(h: History) {
    |h.labels| == |h.hashrate| <= MaxDataPoints
  }

  /** JavaScript `Array.prototype.shift` on a value sequence: drops the first
      element, and does nothing to an empty array. */
  function Shift<T>(s: seq<T>): seq<T> {
    if |s| == 0 then s else s[1..]
  }

  /** Adds one sample. Both sequences lose their oldest entry when the
      label sequence is already at capacity. */
  function Push(h: History, stamp: string, value: real): (r: History)
    ensures WellFormed(h) ==> WellFormed(r)
    ensures |r.labels| > 0 && r.labels[|r.labels| - 1] == stamp
    ensures |r.hashrate| > 0 && r.hashrate[|r.hashrate| - 1] == value
    ensures |h.labels| < MaxDataPoints ==> r.labels == h.labels + [stamp] && r.hashrate == h.hashrate + [value]
    ensures WellFormed(h) && |h.labels| == MaxDataPoints ==>
      |r.labels| == MaxDataPoints && r.labels[..MaxDataPoints - 1] == h.labels[1..]
      && r.hashrate[..MaxDataPoints - 1] == h.hashrate[1..]
  {
    var full := |h.labels| >= MaxDataPoints;
    var labels := if full then Shift(h.labels) else h.labels;
    var values := if full then Shift(h.hashrate) else h.hashrate;
    History(labels + [stamp], values + [value])
  }

  /** The last `MaxDataPoints` elements of `s` (all of `s` when shorter). */
  function Window<T>(s: seq<T>): (w: seq<T>)
    ensures |w| <= MaxDataPoints
  {
    if |s| <= MaxDataPoints then s else s[|s| - MaxDataPoints..]
  }

  /** Pushes a series of samples in order. */
  function PushAll(h: History, labels: seq<string>, values: seq<real>): History
    requires |labels| == |values|
    decreases |labels|
  {
    if |labels| == 0 then h
    else PushAll(Push(h, labels[0], values[0]), labels[1..], values[1..])
  }

  /** One window step: appending to a window and re-windowing. */
  lemma WindowSnoc<T>(s: seq<T>, x: T)
    requires |s| <= MaxDataPoints
    ensures (if |s| >= MaxDataPoints then s[1..] else s) + [x] == Window(s + [x])
  {
  }

  /** After any number of pushes into a well-formed buffer, the buffer holds
      exactly the most recent `MaxDataPoints` samples, oldest first: no
      sample is lost before it is among the oldest and none is reordered. */
  lemma {:induction false} PushAllKeepsLatest(h: History, labels: seq<string>, values: seq<real>)
    requires WellFormed(h) && |labels| == |values|
    ensures PushAll(h, labels, values) == History(Window(h.labels + labels), Window(h.hashrate + values))
    decreases |labels|
  {
    if |labels| > 0 {
      var h' := Push(h, labels[0], values[0]);
      WindowSnoc(h.labels, labels[0]);
      WindowSnoc(h.hashrate, values[0]);
      assert h' == History(Window(h.labels + [labels[0]]), Window(h.hashrate + [values[0]]));
      PushAllKeepsLatest(h', labels[1..], values[1..]);
      WindowConcat(h.labels + [labels[0]], labels[1..]);
      WindowConcat(h.hashrate + [values[0]], values[1..]);
      assert h.labels + [labels[0]] + labels[1..] == h.labels + labels;
      assert h.hashrate + [values[0]] + values[1..] == h.hashrate + values;
    }
  }

  /** Windowing a prefix before appending more does not change the window. */
  lemma WindowConcat<T>(s: seq<T>, t: seq<T>)
    ensures Window(Window(s) + t) == Window(s + t)
  {
    if |t| > 0 && |s| > MaxDataPoints {
      var w := Window(s);
      assert |w| == MaxDataPoints;
      var k := |s| - MaxDataPoints;
      assert s + t == s[..k] + (w + t);
      assert (s + t)[|s + t| - MaxDataPoints..] == (w + t)[|w + t| - MaxDataPoints..];
    }
  }
}
