/** Frame-quality classification (`run_calibration_logic`): three independent
    threshold tests over brightness, noise and focus metrics that are supplied
    as inputs, an ordered issue list and the resulting verdict. */
module Quality {

  /** Brightness below this is too dark. */
  const BrightnessLow: real := 40.0
  /** Standard deviation above this is too noisy. */
  const NoiseHigh: real := 80.0
  /** Laplacian variance below this is out of focus. */
  const FocusLow: real := 100.0

  /** The three metrics the source computes from the grey-scale frame:
      mean intensity, standard deviation of intensity, variance of the
      Laplacian response. */
  datatype Metrics = Metrics(brightness: real, noise: real, focus: real)

  /** One failing test; the order of the constructors is the order in which
      the source appends them. */
  datatype Issue = TooDark | HighNoise | OutOfFocus

  datatype Verdict = Verdict(metrics: Metrics, acceptable: bool, issues: seq<Issue>)

  /** Every test in the order the source runs it. */
  const AllTests: seq<Issue> := [TooDark, HighNoise, OutOfFocus]

  /** Whether the given test fails for the given metrics. */
  predicate Fails(m: Metrics, i: Issue)
  {
    match i
    case TooDark => m.brightness < BrightnessLow
    case HighNoise => m.noise > NoiseHigh
    case OutOfFocus => m.focus < FocusLow
  }

  /** Reference definition of the issue list: the tests, in order, kept when
      they fail. */
  function FailingTests(m: Metrics, tests: seq<Issue>): seq<Issue>
  {
    if |tests| == 0 then []
    else (if Fails(m, tests[0]) then [tests[0]] else []) + FailingTests(m, tests[1..])
  }

  /** Position of a test in the fixed run order. */
  function Rank(i: Issue): nat
  {
    match i
    case TooDark => 0
    case HighNoise => 1
    case OutOfFocus => 2
  }

  /** The message the source appends for each failing test. */
  function Message(i: Issue): (m: string)
    ensures |m| > 0
    ensures forall k :: 0 <= k < |m| ==> m[k] != ','
  {
    match i
    case TooDark => "TOO DARK (Increase Gain)"
    case HighNoise => "HIGH NOISE (Lower Gain)"
    case OutOfFocus => "OUT OF FOCUS"
  }

  /** Different tests have different messages, so the status line names
      each failing test unambiguously. */
  lemma MessagesDistinct(i: Issue, j: Issue)
    requires i != j
    ensures Message(i) != Message(j)
  {
    assert Message(TooDark)[0] == 'T';
    assert Message(HighNoise)[0] == 'H';
    assert Message(OutOfFocus)[0] == 'O';
  }

  /** Classify one set of metrics, appending each failing test in turn. */
  function Assess(m: Metrics): (v: Verdict)
    ensures v.metrics == m
    ensures v.acceptable <==>
              m.brightness >= BrightnessLow && m.noise <= NoiseHigh && m.focus >= FocusLow
    ensures !v.acceptable <==> |v.issues| > 0
    ensures forall i: Issue :: i in v.issues <==> Fails(m, i)
    ensures forall j, k :: 0 <= j < k < |v.issues| ==> Rank(v.issues[j]) < Rank(v.issues[k])
  {
    var dark := if m.brightness < BrightnessLow then [TooDark] else [];
    var noisy := if m.noise > NoiseHigh then [HighNoise] else [];
    var blurry := if m.focus < FocusLow then [OutOfFocus] else [];
    var issues := dark + noisy + blurry;
    Verdict(m, |issues| == 0, issues)
  }

  /** The issue list is exactly the reference filtering of the fixed test order. */
  lemma AssessMatchesReference(m: Metrics)
    ensures Assess(m).issues == FailingTests(m, AllTests)
  {
    var t := AllTests;
    assert t[1..] == [HighNoise, OutOfFocus];
    assert t[1..][1..] == [OutOfFocus];
    assert t[1..][1..][1..] == [];
    assert FailingTests(m, [OutOfFocus]) == (if Fails(m, OutOfFocus) then [OutOfFocus] else []);
  }

  /** A frame darker than the threshold is never acceptable, and the
      darkness complaint comes first. */
  lemma DarkFrameRejected(m: Metrics)
    requires m.brightness < BrightnessLow
    ensures !Assess(m).acceptable
    ensures Assess(m).issues[0] == TooDark
  {
  }

  /** The status line shown after a calibration run: all messages, joined by
      a comma and a space, behind a warning prefix. */
  function StatusText(v: Verdict): (t: string)
    ensures |v.issues| == 0 ==> t == "Status: CALIBRATION OK"
    ensures |v.issues| > 0 ==> |t| > 9 && t[..9] == "WARNING: "
  {
    if |v.issues| == 0 then "Status: CALIBRATION OK"
    else "WARNING: " + JoinMessages(v.issues)
  }

  /** `", ".join` over the messages of the issues. */
  function JoinMessages(issues: seq<Issue>): (t: string)
    requires |issues| > 0
    ensures |t| >= |Message(issues[0])|
    ensures t[..|Message(issues[0])|] == Message(issues[0])
  {
    if |issues| == 1 then Message(issues[0])
    else Message(issues[0]) + ", " + JoinMessages(issues[1..])
  }
}
