/** Best-detection selection (the loop at the top of `run_ai_logic`). The
    detector is opaque: its output arrives as a sequence of boxes whose
    coordinates have already been truncated to integers, each with a
    confidence. */
module Detection {
  import opened Wrappers

  /** Detections at or below this confidence are ignored. */
  const MinConfidence: real := 0.4

  datatype Box = Box(x1: int, y1: int, x2: int, y2: int)

  datatype Detection = Detection(box: Box, conf: real)

  /** `k` is a candidate: its confidence clears the minimum strictly. */
  predicate IsCandidate(ds: seq<Detection>, k: nat)
  {
    k < |ds| && ds[k].conf > MinConfidence
  }

  /** `k` holds the highest candidate confidence and no earlier entry ties it. */
  predicate IsFirstMax(ds: seq<Detection>, k: nat)
  {
    && IsCandidate(ds, k)
    && (forall i :: 0 <= i < |ds| && ds[i].conf > MinConfidence ==> ds[i].conf <= ds[k].conf)
    && (forall i :: 0 <= i < k ==> ds[i].conf < ds[k].conf)
  }

  /** The running maximum the source keeps: 0.0 until a target is chosen. */
  function MaxConf(ds: seq<Detection>, target: Option<nat>): real
  {
    if target.Some? && target.value < |ds| then ds[target.value].conf else 0.0
  }

  /** The selection after scanning all of `ds`, one entry at a time, exactly
      as the loop does: a later entry replaces the target only when it clears
      the minimum AND beats the running maximum strictly. */
  function Select(ds: seq<Detection>): (r: Option<nat>)
    ensures r.None? <==> forall i :: 0 <= i < |ds| ==> ds[i].conf <= MinConfidence
    ensures r.Some? ==> IsFirstMax(ds, r.value)
    decreases |ds|
  {
    if |ds| == 0 then None
    else
      var prefix := ds[..|ds| - 1];
      var prev := Select(prefix);
      var last := |ds| - 1;
      assert forall i :: 0 <= i < |prefix| ==> prefix[i] == ds[i];
      if ds[last].conf > MinConfidence && ds[last].conf > MaxConf(prefix, prev) then
        Some(last)
      else
        assert prev.Some? ==> ds[last].conf <= MinConfidence || ds[last].conf <= ds[prev.value].conf;
        prev
  }

  /** There is only one first maximum, so the specification pins the result down. */
  lemma FirstMaxUnique(ds: seq<Detection>, j: nat, k: nat)
    requires IsFirstMax(ds, j) && IsFirstMax(ds, k)
    ensures j == k
  {
  }

  /** Selection is characterised completely by the first-maximum specification. */
  lemma SelectIffFirstMax(ds: seq<Detection>, k: nat)
    ensures Select(ds) == Some(k) <==> IsFirstMax(ds, k)
  {
    if IsFirstMax(ds, k) {
      assert Select(ds).Some?;
      FirstMaxUnique(ds, Select(ds).value, k);
    }
  }

  /** The selection loop as the source writes it, over the detections in
      order, with the running target and maximum. */
  method SelectBest(ds: seq<Detection>) returns (target: Option<nat>, maxConf: real)
    ensures target == Select(ds)
    ensures target.None? ==> maxConf == 0.0
    ensures target.Some? ==> IsFirstMax(ds, target.value) && maxConf == ds[target.value].conf
  {
    target := None;
    maxConf := 0.0;
    var n := 0;
    while n < |ds|
      invariant 0 <= n <= |ds|
      invariant target == Select(ds[..n])
      invariant maxConf == MaxConf(ds[..n], target)
    {
      assert ds[..n + 1][..n] == ds[..n];
      var conf := ds[n].conf;
      if conf > MinConfidence && conf > maxConf {
        maxConf := conf;
        target := Some(n);
      }
      n := n + 1;
    }
    assert ds[..n] == ds;
  }

  /** With confidences 0.5, 0.9, 0.3 the 0.9 entry is selected. */
  lemma SelectsHighest(b0: Box, b1: Box, b2: Box)
    ensures Select([Detection(b0, 0.5), Detection(b1, 0.9), Detection(b2, 0.3)]) == Some(1)
  {
    var ds := [Detection(b0, 0.5), Detection(b1, 0.9), Detection(b2, 0.3)];
    SelectIffFirstMax(ds, 1);
  }

  /** A confidence of exactly 0.4 is excluded. */
  lemma BoundaryConfidenceExcluded(b: Box)
    ensures Select([Detection(b, 0.4)]) == None
  {
  }

  /** Of two equal maxima, the earlier one wins. */
  lemma TieKeepsEarliest(b0: Box, b1: Box, c: real)
    requires c > MinConfidence
    ensures Select([Detection(b0, c), Detection(b1, c)]) == Some(0)
  {
    SelectIffFirstMax([Detection(b0, c), Detection(b1, c)], 0);
  }
}
