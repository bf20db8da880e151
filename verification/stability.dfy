/** Stability counter and auto-freeze debounce (the end of `run_ai_logic` and
    `perform_auto_freeze`). The clock is an input: `now` is the value the
    source reads from `time.time()`. */
module Stability {
  import opened Wrappers
  import opened Decimal

  /** Consecutive standard frames that trigger an auto-freeze. */
  const StabilityThreshold: nat := 30
  /** Minimum time between two saved snapshots, in seconds. */
  const CooldownSeconds: real := 3.0

  /** A snapshot the source writes to disk: file name and capture time. */
  datatype Capture = Capture(filename: string, time: real)

  /** The part of the application state the tracker owns. */
  datatype Tracker = Tracker(stableFrames: nat, lastSavedTime: real)

  /** One tracker step: the new state, whether the freeze routine was called,
      and the snapshot it saved, if any. */
  datatype TrackResult = TrackResult(tracker: Tracker, triggered: bool, capture: Option<Capture>)

  /** `snapshot_<int(now)>.jpg`: the number between the fixed prefix and
      the extension reads back as the truncated time. */
  function SnapshotName(now: real): (name: string)
    ensures |name| > 13 && name[..9] == "snapshot_" && name[|name| - 4..] == ".jpg"
    ensures var digits := name[9..|name| - 4];
            && |digits| > 0
            && (forall i :: 0 < i < |digits| ==> IsDigit(digits[i]))
            && (digits[0] == '-' || IsDigit(digits[0]))
            && (digits[0] == '-' <==> Trunc(now) < 0)
            && (|digits| > (if Trunc(now) < 0 then 2 else 1) ==>
                  digits[if Trunc(now) < 0 then 1 else 0] != '0')
            && ParseInt(digits) == Trunc(now)
  {
    var digits := IntToString(Trunc(now));
    IntRoundTrip(Trunc(now));
    var name := "snapshot_" + digits + ".jpg";
    assert name[9..|name| - 4] == digits;
    name
  }

  /** Snapshot names of times at least two seconds apart differ. */
  lemma SnapshotNamesDistinct(a: real, b: real)
    requires b - a >= 2.0
    ensures SnapshotName(a) != SnapshotName(b)
  {
    var p := "snapshot_";
    var sa := IntToString(Trunc(a));
    var sb := IntToString(Trunc(b));
    if SnapshotName(a) == SnapshotName(b) {
      assert p + sa + ".jpg" == p + sb + ".jpg";
      assert |sa| == |sb|;
      assert sa == (p + sa + ".jpg")[|p|..|p| + |sa|];
      assert sb == (p + sb + ".jpg")[|p|..|p| + |sb|];
      IntToStringInjective(Trunc(a), Trunc(b));
      assert false;
    }
  }

  /** `perform_auto_freeze`: inside the cooldown nothing happens; otherwise a
      snapshot named after the current time is saved and the save time moves
      to `now`. Returns the new save time and the snapshot. */
  function AutoFreeze(lastSavedTime: real, now: real): (r: (real, Option<Capture>))
    ensures r.1.None? <==> now - lastSavedTime < CooldownSeconds
    ensures r.1.None? ==> r.0 == lastSavedTime
    ensures r.1.Some? ==> r.0 == now == r.1.value.time && r.1.value.filename == SnapshotName(now)
  {
    if now - lastSavedTime < CooldownSeconds then (lastSavedTime, None)
    else (now, Some(Capture(SnapshotName(now), now)))
  }

  /** The counter update alone: the new count and whether the threshold was reached. */
  function Advance(count: nat, standard: bool): (r: (nat, bool))
    ensures r.0 < StabilityThreshold
    ensures r.1 <==> standard && count + 1 >= StabilityThreshold
    ensures standard && !r.1 ==> r.0 == count + 1
    ensures !standard || r.1 ==> r.0 == 0
  {
    if standard then
      if count + 1 >= StabilityThreshold then (0, true) else (count + 1, false)
    else
      (0, false)
  }

  /** One frame with a selected detection: count it when it is a standard
      plane, freeze and reset at the threshold, reset on any other frame. */
  function Track(t: Tracker, standard: bool, now: real): (r: TrackResult)
    ensures (r.tracker.stableFrames, r.triggered) == Advance(t.stableFrames, standard)
    ensures !r.triggered ==> r.capture.None? && r.tracker.lastSavedTime == t.lastSavedTime
    ensures r.triggered ==> (r.tracker.lastSavedTime, r.capture) == AutoFreeze(t.lastSavedTime, now)
  {
    var (count, fire) := Advance(t.stableFrames, standard);
    if fire then
      var (saved, capture) := AutoFreeze(t.lastSavedTime, now);
      TrackResult(Tracker(count, saved), true, capture)
    else
      TrackResult(Tracker(count, t.lastSavedTime), false, None)
  }

  /** The counter after a run of frames from zero, and whether the last frame
      of the run triggered a freeze. */
  function Counted(frames: seq<bool>): (nat, bool)
    decreases |frames|
  {
    if |frames| == 0 then (0, false)
    else Advance(Counted(frames[..|frames| - 1]).0, frames[|frames| - 1])
  }

  /** Number of standard frames at the end of the run. */
  function TrailingRun(frames: seq<bool>): (n: nat)
    ensures n <= |frames|
    ensures forall i :: |frames| - n <= i < |frames| ==> frames[i]
    ensures n < |frames| ==> !frames[|frames| - 1 - n]
    decreases |frames|
  {
    if |frames| == 0 || !frames[|frames| - 1] then 0
    else TrailingRun(frames[..|frames| - 1]) + 1
  }

  /** The counter is the length of the current run of standard frames,
      modulo the threshold, and a freeze fires exactly when that run reaches
      a positive multiple of the threshold. */
  lemma {:induction false} CountedIsTrailingRun(frames: seq<bool>)
    ensures Counted(frames).0 == TrailingRun(frames) % StabilityThreshold
    ensures Counted(frames).1 <==>
              TrailingRun(frames) > 0 && TrailingRun(frames) % StabilityThreshold == 0
    decreases |frames|
  {
    if |frames| > 0 {
      CountedIsTrailingRun(frames[..|frames| - 1]);
    }
  }

  /** From zero, a run of standard frames fires on its 30th frame and not before. */
  lemma FiresOnThirtieth(frames: seq<bool>)
    requires 0 < |frames| <= StabilityThreshold
    requires forall i :: 0 <= i < |frames| ==> frames[i]
    ensures Counted(frames).1 <==> |frames| == StabilityThreshold
    ensures |frames| < StabilityThreshold ==> Counted(frames).0 == |frames|
  {
    CountedIsTrailingRun(frames);
    assert TrailingRun(frames) == |frames|;
  }

  /** After a non-standard frame at position `k`, none of the next 29 frames fires. */
  lemma ResetNeedsFullRun(frames: seq<bool>, k: nat, i: nat)
    requires k < i < |frames| && i < k + StabilityThreshold
    requires !frames[k]
    ensures !Counted(frames[..i + 1]).1
  {
    var p := frames[..i + 1];
    CountedIsTrailingRun(p);
    assert !p[k];
    assert TrailingRun(p) < StabilityThreshold;
  }
}
