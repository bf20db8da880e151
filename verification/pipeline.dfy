/** The per-frame driver (`__init__`, `update`, `toggle_ai`,
    `run_calibration_logic`'s cadence and `run_ai_logic`'s bookkeeping) as a
    pure step function over an explicit state record. Everything the source
    reads from the outside world during one tick is a field of `Tick`. */
module Pipeline {
  import opened Wrappers
  import opened Quality
  import opened Detection
  import opened Placement
  import opened Stability

  /** Calibration runs on frames whose number is a multiple of this. */
  const CalibrationPeriod: nat := 5

  datatype State = State(
    frameCount: nat,
    calibrationOk: bool,
    stableFrames: nat,
    lastSavedTime: real,
    aiActive: bool)

  /** What one tick of the frame loop observes: whether the read succeeded,
      the quality metrics of the frame, the detector's output, the frame
      size and the clock. */
  datatype Tick = Tick(
    readOk: bool,
    metrics: Metrics,
    detections: seq<Detection>,
    width: int,
    height: int,
    now: real)

  datatype StepResult = StepResult(state: State, capture: Option<Capture>)

  /** The state `__init__` sets up. */
  const Initial: State := State(0, false, 0, 0.0, true)

  /** The toggle button flips AI processing and nothing else. */
  function ToggleAi(s: State): (r: State)
    ensures r.aiActive != s.aiActive
    ensures r.(aiActive := s.aiActive) == s
  {
    s.(aiActive := !s.aiActive)
  }

  /** Recompute the calibration verdict on every fifth frame; keep it otherwise. */
  function Calibrate(s: State, m: Metrics): (r: State)
    ensures r.(calibrationOk := s.calibrationOk) == s
    ensures s.frameCount % CalibrationPeriod != 0 ==> r.calibrationOk == s.calibrationOk
    ensures s.frameCount % CalibrationPeriod == 0 ==>
              (r.calibrationOk <==>
                 m.brightness >= BrightnessLow && m.noise <= NoiseHigh && m.focus >= FocusLow)
  {
    if s.frameCount % CalibrationPeriod != 0 then s
    else s.(calibrationOk := Assess(m).acceptable)
  }

  /** Whether the tick's best detection is a standard plane under the given
      calibration verdict; false when nothing was detected. */
  predicate IsStandardTick(t: Tick, calibrationOk: bool): (b: bool)
    ensures b <==> exists k: nat ::
              IsFirstMax(t.detections, k) &&
              Evaluate(t.detections[k], t.width, t.height, calibrationOk).isStandard
    ensures b ==> calibrationOk
  {
    var best := Select(t.detections);
    if best.Some? then
      SelectIffFirstMax(t.detections, best.value);
      forall k: nat | IsFirstMax(t.detections, k)
        ensures k == best.value
      {
        SelectIffFirstMax(t.detections, k);
      }
      Evaluate(t.detections[best.value], t.width, t.height, calibrationOk).isStandard
    else
      assert forall k: nat :: !IsFirstMax(t.detections, k);
      false
  }

  /** The detection half of one tick: select, evaluate, count, maybe freeze. */
  function AiStep(s: State, t: Tick): (r: StepResult)
    ensures r.state.stableFrames < StabilityThreshold
    ensures IsStandardTick(t, s.calibrationOk) && s.stableFrames + 1 < StabilityThreshold ==>
              r.state.stableFrames == s.stableFrames + 1
    ensures !IsStandardTick(t, s.calibrationOk) ==>
              r.state.stableFrames == 0 && r.capture.None? && r.state.lastSavedTime == s.lastSavedTime
    ensures r.capture.Some? ==>
              && r.capture.value.time == t.now == r.state.lastSavedTime
              && r.capture.value.filename == SnapshotName(t.now)
              && t.now - s.lastSavedTime >= CooldownSeconds
              && r.state.stableFrames == 0
    ensures IsStandardTick(t, s.calibrationOk) && s.stableFrames + 1 >= StabilityThreshold ==>
              && r.state.stableFrames == 0
              && (r.capture.Some? <==> t.now - s.lastSavedTime >= CooldownSeconds)
    ensures r.capture.None? ==> r.state.lastSavedTime == s.lastSavedTime
    ensures r.state.(stableFrames := s.stableFrames, lastSavedTime := s.lastSavedTime) == s
  {
    match Select(t.detections)
    case None =>
      StepResult(s.(stableFrames := 0), None)
    case Some(k) =>
      var v := Evaluate(t.detections[k], t.width, t.height, s.calibrationOk);
      var tr := Track(Tracker(s.stableFrames, s.lastSavedTime), v.isStandard, t.now);
      StepResult(
        s.(stableFrames := tr.tracker.stableFrames, lastSavedTime := tr.tracker.lastSavedTime),
        tr.capture)
  }

  /** One call of `update`: calibration first, then (if enabled) detection,
      then the frame counter, which advances even when the read failed. */
  function Step(s: State, t: Tick): (r: StepResult)
    ensures r.state.frameCount == s.frameCount + 1
    ensures r.state.aiActive == s.aiActive
    ensures !t.readOk ==> r.state == s.(frameCount := s.frameCount + 1) && r.capture.None?
    ensures t.readOk ==> r.state.calibrationOk == Calibrate(s, t.metrics).calibrationOk
    ensures !s.aiActive ==>
              && r.state.stableFrames == s.stableFrames
              && r.state.lastSavedTime == s.lastSavedTime
              && r.capture.None?
    ensures s.stableFrames < StabilityThreshold ==> r.state.stableFrames < StabilityThreshold
    ensures t.readOk && s.aiActive && !IsStandardTick(t, r.state.calibrationOk) ==> r.state.stableFrames == 0
    ensures t.readOk && s.aiActive && IsStandardTick(t, r.state.calibrationOk) &&
            s.stableFrames + 1 < StabilityThreshold ==>
              r.state.stableFrames == s.stableFrames + 1
    ensures t.readOk && s.aiActive && IsStandardTick(t, r.state.calibrationOk) &&
            s.stableFrames + 1 >= StabilityThreshold ==>
              && r.state.stableFrames == 0
              && (r.capture.Some? <==> t.now - s.lastSavedTime >= CooldownSeconds)
    ensures r.capture.Some? ==>
              && t.readOk && s.aiActive && IsStandardTick(t, r.state.calibrationOk)
              && s.stableFrames + 1 >= StabilityThreshold && r.state.stableFrames == 0
    ensures r.capture.None? ==> r.state.lastSavedTime == s.lastSavedTime
    ensures r.capture.Some? ==>
              && r.capture.value.time == t.now == r.state.lastSavedTime
              && r.capture.value.filename == SnapshotName(t.now)
              && t.now - s.lastSavedTime >= CooldownSeconds
  {
    if !t.readOk then
      StepResult(s.(frameCount := s.frameCount + 1), None)
    else
      var calibrated := Calibrate(s, t.metrics);
      var after := if calibrated.aiActive then AiStep(calibrated, t) else StepResult(calibrated, None);
      StepResult(after.state.(frameCount := s.frameCount + 1), after.capture)
  }

  /** The state after any ticks from start-up: one frame counted per tick and
      the counter below the threshold. */
  lemma FromInitial(ticks: seq<Tick>)
    ensures Run(Initial, ticks).final.frameCount == |ticks|
    ensures Run(Initial, ticks).final.stableFrames < StabilityThreshold
  {
    RunKeepsCounterBelowThreshold(Initial, ticks);
  }

  /** The states and snapshots of a sequence of ticks. */
  datatype Trace = Trace(final: State, captures: seq<Option<Capture>>)

  /** Repeated calls of `update`: one capture slot per tick; the frame count
      grows by the number of ticks and the AI switch is untouched. */
  function Run(s: State, ticks: seq<Tick>): (r: Trace)
    ensures |r.captures| == |ticks|
    ensures r.final.frameCount == s.frameCount + |ticks|
    ensures r.final.aiActive == s.aiActive
    decreases |ticks|
  {
    if |ticks| == 0 then Trace(s, [])
    else
      var prev := Run(s, ticks[..|ticks| - 1]);
      var last := Step(prev.final, ticks[|ticks| - 1]);
      Trace(last.state, prev.captures + [last.capture])
  }

  /** The last capture of a run is the one its last step produced. */
  lemma RunLast(s: State, ticks: seq<Tick>)
    requires |ticks| > 0
    ensures Run(s, ticks).captures[|ticks| - 1] ==
              Step(Run(s, ticks[..|ticks| - 1]).final, ticks[|ticks| - 1]).capture
  {
  }

  /** Running a prefix gives a prefix of the captures. */
  lemma {:induction false} RunPrefix(s: State, ticks: seq<Tick>, n: nat)
    requires n <= |ticks|
    ensures Run(s, ticks).captures[..n] == Run(s, ticks[..n]).captures
    decreases |ticks|
  {
    if n < |ticks| {
      var init := ticks[..|ticks| - 1];
      RunPrefix(s, init, n);
      assert init[..n] == ticks[..n];
    } else {
      assert ticks[..n] == ticks;
    }
  }

  /** A counter below the threshold stays below it over any sequence of ticks. */
  lemma {:induction false} RunKeepsCounterBelowThreshold(s: State, ticks: seq<Tick>)
    requires s.stableFrames < StabilityThreshold
    ensures Run(s, ticks).final.stableFrames < StabilityThreshold
    decreases |ticks|
  {
    if |ticks| > 0 {
      RunKeepsCounterBelowThreshold(s, ticks[..|ticks| - 1]);
    }
  }

  /** The time of the last snapshot among `captures`, or `initial` when there is none. */
  function LastSaved(initial: real, captures: seq<Option<Capture>>): real
    decreases |captures|
  {
    if |captures| == 0 then initial
    else if captures[|captures| - 1].Some? then captures[|captures| - 1].value.time
    else LastSaved(initial, captures[..|captures| - 1])
  }

  /** The save time after a run is the time of its last snapshot, or the
      initial save time when there was none. */
  lemma {:induction false} RunLastSaved(s: State, ticks: seq<Tick>)
    ensures Run(s, ticks).final.lastSavedTime == LastSaved(s.lastSavedTime, Run(s, ticks).captures)
    decreases |ticks|
  {
    if |ticks| > 0 {
      var init := ticks[..|ticks| - 1];
      RunLastSaved(s, init);
      var r := Run(s, ticks);
      assert r.captures[..|r.captures| - 1] == Run(s, init).captures;
    }
  }

  /** With no snapshot after position `i`, the last snapshot is the one at `i`. */
  lemma {:induction false} LastSavedIsLatest(initial: real, captures: seq<Option<Capture>>, i: nat)
    requires i < |captures| && captures[i].Some?
    requires forall k :: i < k < |captures| ==> captures[k].None?
    ensures LastSaved(initial, captures) == captures[i].value.time
    decreases |captures|
  {
    if i < |captures| - 1 {
      LastSavedIsLatest(initial, captures[..|captures| - 1], i);
    }
  }

  /** Each snapshot comes at least the cooldown after the save time that
      preceded its tick, and is named after its own time. */
  lemma CaptureAfterCooldown(s: State, ticks: seq<Tick>, j: nat)
    requires j < |ticks| && Run(s, ticks).captures[j].Some?
    ensures Run(s, ticks).captures[j].value.time - Run(s, ticks[..j]).final.lastSavedTime >= CooldownSeconds
    ensures Run(s, ticks).captures[j].value.filename == SnapshotName(Run(s, ticks).captures[j].value.time)
  {
    RunCaptureIsStepCapture(s, ticks, j);
    var st := Step(Run(s, ticks[..j]).final, ticks[j]);
    assert st.capture.value.time == ticks[j].now;
  }

  /** The capture at position `j` of a run is the one the `j`-th step produced. */
  lemma RunCaptureIsStepCapture(s: State, ticks: seq<Tick>, j: nat)
    requires j < |ticks|
    ensures Run(s, ticks).captures[j] == Step(Run(s, ticks[..j]).final, ticks[j]).capture
  {
    var p := ticks[..j + 1];
    assert p[..j] == ticks[..j] && p[j] == ticks[j];
    RunPrefix(s, ticks, j + 1);
    RunLast(s, p);
  }

  /** Debounce: two consecutive snapshots are at least the cooldown apart,
      so their file names differ. */
  lemma CapturesSpaced(s: State, ticks: seq<Tick>, i: nat, j: nat)
    requires i < j < |ticks|
    requires Run(s, ticks).captures[i].Some? && Run(s, ticks).captures[j].Some?
    requires forall k :: i < k < j ==> Run(s, ticks).captures[k].None?
    ensures Run(s, ticks).captures[j].value.time - Run(s, ticks).captures[i].value.time >= CooldownSeconds
    ensures Run(s, ticks).captures[j].value.filename != Run(s, ticks).captures[i].value.filename
  {
    var caps := Run(s, ticks).captures;
    var pre := Run(s, ticks[..j]);
    RunPrefix(s, ticks, j);
    assert pre.captures == caps[..j];
    RunLastSaved(s, ticks[..j]);
    LastSavedIsLatest(s.lastSavedTime, pre.captures, i);
    assert pre.final.lastSavedTime == caps[i].value.time;
    CaptureAfterCooldown(s, ticks, j);
    CaptureAfterCooldown(s, ticks, i);
    SnapshotNamesDistinct(caps[i].value.time, caps[j].value.time);
  }

  /** A tick whose frame reads, whose metrics pass every test and whose best
      detection is a confident, centred box. */
  predicate GoodTick(t: Tick)
  {
    t.readOk && Assess(t.metrics).acceptable && IsStandardTick(t, true)
  }

  /** From a zero counter with AI on and a calibration that is already good
      or about to be recomputed, `n < 30` good ticks count up to `n` without
      a snapshot. */
  lemma {:induction false} GoodTicksCountUp(s: State, ticks: seq<Tick>)
    requires s.aiActive && s.stableFrames == 0
    requires s.calibrationOk || s.frameCount % CalibrationPeriod == 0
    requires |ticks| < StabilityThreshold
    requires forall i :: 0 <= i < |ticks| ==> GoodTick(ticks[i])
    ensures Run(s, ticks).final.stableFrames == |ticks|
    ensures Run(s, ticks).final.aiActive
    ensures Run(s, ticks).final.lastSavedTime == s.lastSavedTime
    ensures |ticks| > 0 ==> Run(s, ticks).final.calibrationOk
    ensures |ticks| == 0 ==> Run(s, ticks).final == s
    ensures forall i :: 0 <= i < |ticks| ==> Run(s, ticks).captures[i].None?
    decreases |ticks|
  {
    if |ticks| > 0 {
      var init := ticks[..|ticks| - 1];
      GoodTicksCountUp(s, init);
      var prev := Run(s, init);
      var t := ticks[|ticks| - 1];
      assert GoodTick(t);
      var c := Calibrate(prev.final, t.metrics);
      assert c.calibrationOk;
      assert IsStandardTick(t, c.calibrationOk);
      assert Run(s, ticks).captures[..|init|] == prev.captures;
    }
  }

  /** The 30th consecutive good tick calls the freeze routine: it saves a
      snapshot exactly when the cooldown since the last save has passed, and
      the counter restarts from zero either way. */
  lemma ThirtiethGoodTickFreezes(s: State, ticks: seq<Tick>)
    requires s.aiActive && s.stableFrames == 0
    requires s.calibrationOk || s.frameCount % CalibrationPeriod == 0
    requires |ticks| == StabilityThreshold
    requires forall i :: 0 <= i < |ticks| ==> GoodTick(ticks[i])
    ensures forall i :: 0 <= i < |ticks| - 1 ==> Run(s, ticks).captures[i].None?
    ensures Run(s, ticks).captures[|ticks| - 1].Some? <==>
              ticks[|ticks| - 1].now - s.lastSavedTime >= CooldownSeconds
    ensures Run(s, ticks).final.stableFrames == 0
  {
    var init := ticks[..|ticks| - 1];
    GoodTicksCountUp(s, init);
    var prev := Run(s, init);
    assert prev.final.stableFrames == StabilityThreshold - 1;
    var t := ticks[|ticks| - 1];
    assert GoodTick(t);
    assert Calibrate(prev.final, t.metrics).calibrationOk;
    assert Run(s, ticks).captures[..|init|] == prev.captures;
  }

  /** A frame of 640x480 with acceptable quality and one detection of
      confidence `conf` around the midpoint (320, 240). */
  function CenteredTick(conf: real, now: real): Tick
  {
    Tick(true, Metrics(100.0, 50.0, 200.0), [Detection(Box(300, 220, 340, 260), conf)], 640, 480, now)
  }

  /** The end-to-end scenario: thirty such frames at confidence 0.8 from the
      initial state, with the clock past the cooldown, produce exactly one
      snapshot, on the 30th frame. */
  lemma ScenarioOneSnapshot(ticks: seq<Tick>)
    requires |ticks| == StabilityThreshold
    requires forall i :: 0 <= i < |ticks| ==> ticks[i] == CenteredTick(0.8, ticks[i].now)
    requires ticks[|ticks| - 1].now >= CooldownSeconds
    ensures forall i :: 0 <= i < |ticks| - 1 ==> Run(Initial, ticks).captures[i].None?
    ensures Run(Initial, ticks).captures[|ticks| - 1].Some?
  {
    forall i | 0 <= i < |ticks|
      ensures GoodTick(ticks[i])
    {
      assert Select(ticks[i].detections) == Some(0);
      CenteredBoxIsStandard();
    }
    ThirtiethGoodTickFreezes(Initial, ticks);
  }

  /** Confidence 0.5 never yields a snapshot, however many frames. */
  lemma {:induction false} ScenarioLowConfidenceNever(s: State, ticks: seq<Tick>)
    requires forall i :: 0 <= i < |ticks| ==> ticks[i] == CenteredTick(0.5, ticks[i].now)
    ensures forall i :: 0 <= i < |ticks| ==> Run(s, ticks).captures[i].None?
    decreases |ticks|
  {
    if |ticks| > 0 {
      var init := ticks[..|ticks| - 1];
      ScenarioLowConfidenceNever(s, init);
      var t := ticks[|ticks| - 1];
      assert Select(t.detections) == Some(0);
      assert Run(s, ticks).captures[..|init|] == Run(s, init).captures;
    }
  }

  /** With AI off, ticks leave the counter and the save time alone. */
  lemma {:induction false} DisabledAiHoldsCounter(s: State, ticks: seq<Tick>)
    requires !s.aiActive
    ensures Run(s, ticks).final.stableFrames == s.stableFrames
    ensures Run(s, ticks).final.lastSavedTime == s.lastSavedTime
    ensures !Run(s, ticks).final.aiActive
    ensures forall i :: 0 <= i < |ticks| ==> Run(s, ticks).captures[i].None?
    decreases |ticks|
  {
    if |ticks| > 0 {
      var init := ticks[..|ticks| - 1];
      DisabledAiHoldsCounter(s, init);
      assert Run(s, ticks).captures[..|init|] == Run(s, init).captures;
    }
  }
}
