# SonoGuide per-frame decision pipeline, in Dafny

This project models the decision core of the SonoGuide ultrasound co-pilot
(`SonoGuideApp` in `main.py`). On every tick of the frame loop the
application does four things:

1. On every fifth frame it grades the frame's quality: brightness, noise and
   focus, each against a threshold.
2. It picks the most confident detection from the object detector.
3. It decides whether the frame is a "standard plane": confident, centred,
   and well calibrated.
4. It counts consecutive standard planes. After 30 of them it auto-freezes,
   that is, saves a snapshot, unless the last save was less than 3 seconds
   ago.

The model is functional. An immutable `Pipeline.State` holds the
application's counters: frame count, calibration verdict, stable-frame
counter, last save time and AI switch. `Pipeline.Step` maps a state and one
`Pipeline.Tick` to the next state and at most one snapshot. A tick carries
everything the source reads from the outside world:

- whether the frame read succeeded;
- the three quality metrics;
- the detector's boxes and confidences;
- the frame size;
- the clock.

Thresholds are Dafny `real`s, which are exact rationals.

Modules, leaf first:

- `Wrappers`: `Option`.
- `Quality`: the three threshold tests, the ordered issue list, the verdict and its status line.
- `Detection`: selection of the first strictly-highest detection above confidence 0.4.
- `Placement`: box centre with floor halving, the open ±15% centre band, and the standard-plane predicate.
- `Decimal`: Python's `int()` on a float (truncation toward zero) and `str()` on an int, used for the snapshot name.
- `Stability`: the stable-frame counter, the threshold of 30, and the 3-second cooldown of the auto-freeze.
- `Pipeline`: the driver step, the AI toggle, runs over tick sequences, and the end-to-end scenarios.

Python's `//` by 2 floors. Dafny's `/` on `int` is Euclidean, and for a
positive divisor the two agree, so `Placement.FloorHalf` uses `/` directly.
Its contract states the floor property.

With AI off, `update` skips `run_ai_logic` and leaves `stable_frames` as it
was (main.py:93-94); see `Pipeline.DisabledAiHoldsCounter`.

## Model

| member | source | states |
|---|---|---|
| Quality.Assess | main.py:135-159 | the verdict is acceptable iff brightness ≥ 40, noise ≤ 80 and focus ≥ 100; unacceptable exactly when the issue list is non-empty; an issue is listed iff its test fails; the issues come in the fixed order dark, noise, focus |
| Quality.Message | main.py:144-152 | each failing test has a non-empty message with no comma in it, so the comma-joined status line separates them |
| Quality.MessagesDistinct | main.py:144-152 | different tests have different messages |
| Quality.AssessMatchesReference | main.py:142-152 | the issue list equals an independent definition: the test order dark, noise, focus, keeping each test that fails |
| Quality.DarkFrameRejected | main.py:143-144 | a frame darker than 40 is never acceptable, and the darkness complaint is listed first |
| Quality.StatusText | main.py:139-156 | with no issues the status is "Status: CALIBRATION OK"; otherwise it starts with "WARNING: " |
| Quality.JoinMessages | main.py:155 | the comma-joined message list starts with the first issue's message |
| Detection.Select | main.py:173-185 | the left-to-right selection returns nothing iff every confidence is ≤ 0.4; otherwise the chosen index is above 0.4, has the highest candidate confidence, and no earlier entry ties it |
| Detection.SelectIffFirstMax | main.py:173-185 | selection picks index k iff k is the first strict maximum among the candidates, in both directions |
| Detection.SelectBest | main.py:173-185 | the source's loop, with its running target and `max_conf`, computes the same selection; `max_conf` is the selected confidence, or 0.0 when nothing is selected |
| Detection.SelectsHighest | main.py:183-185 | confidences [0.5, 0.9, 0.3] select the 0.9 entry |
| Detection.BoundaryConfidenceExcluded | main.py:183 | a confidence of exactly 0.4 is not selected |
| Detection.TieKeepsEarliest | main.py:183 | of two equal maxima the earlier entry wins, because the comparison is strict |
| Placement.FloorHalf | main.py:193 | `n // 2` is the h with 2h ≤ n < 2h + 2, so it rounds toward minus infinity |
| Placement.Center | main.py:192-193 | each centre coordinate is the corner plus the floored half of the box extent |
| Placement.InBand | main.py:201-204 | a coordinate is in the open band iff 7·size < 20·c < 13·size, that is strictly between 35% and 65% of the dimension |
| Placement.IsCentered | main.py:201-204 | a point is centred iff both coordinates lie strictly between 35% and 65% of their dimension; a centred point lies strictly inside the frame |
| Placement.InBandIffInteger | main.py:201-204 | the open ±15% band around the midpoint holds iff 10·\|2c − size\| < 3·size, an integer reference form |
| Placement.EmptyBandForDegenerateFrame | main.py:201-204 | no point is centred in a frame of zero or negative extent |
| Placement.BandBoundaryExcluded | main.py:203-204 | the two band edges are not centred, because the comparisons are strict |
| Placement.Evaluate | main.py:187-206 | the frame is a standard plane iff the confidence is > 0.6, both centre coordinates lie in their integer-form bands, and calibration is OK; the verdict also reports the centre and the box size |
| Placement.QualityGatesPlacement | main.py:206 | with calibration not OK a frame is never a standard plane |
| Placement.HalfConfidenceNeverStandard | main.py:206 | a confidence of 0.5 is never a standard plane, wherever the box lies |
| Placement.CenteredBoxIsStandard | main.py:191-206 | a 0.8-confidence box centred at (320, 240) in a 640×480 frame with good calibration is a standard plane |
| Decimal.Trunc | main.py:250 | `int(x)` truncates toward zero: it has the sign of x, and x lies less than one unit from it, on the side away from zero |
| Decimal.NatToString | main.py:250 | the numeral is non-empty, all digits, and has no leading zero |
| Decimal.IntToString | main.py:250 | the string is non-empty, starts with '-' iff the number is negative, is all digits after the sign, and has no leading zero |
| Decimal.NatRoundTrip | main.py:250 | parsing the numeral of n gives back n |
| Decimal.IntRoundTrip | main.py:250 | parsing `str(n)` gives back n, for negative n too |
| Decimal.IntToStringInjective | main.py:250 | distinct integers have distinct strings |
| Stability.SnapshotName | main.py:250 | the name is `snapshot_` then a decimal numeral without leading zeros, carrying a minus sign iff `int(now)` is negative, then `.jpg`; the numeral reads back as `int(now)` |
| Stability.SnapshotNamesDistinct | main.py:250 | two capture times at least 2 s apart get different `snapshot_<int(t)>.jpg` names |
| Stability.AutoFreeze | main.py:241-252 | nothing is saved iff now − last save < 3.0, and then the save time keeps its value; otherwise a snapshot named after `now` is saved and the save time becomes `now` |
| Stability.Advance | main.py:213-228 | the counter stays below 30; the threshold fires iff the frame is standard and the count reaches 30; a standard frame that does not fire adds one; any other outcome resets to 0 |
| Stability.Track | main.py:213-228 | the counter follows `Advance`; without a trigger nothing is saved and the save time is kept; on a trigger the save time and snapshot are those of `AutoFreeze` |
| Stability.CountedIsTrailingRun | main.py:213-228 | from 0, the counter equals the length of the current run of standard frames, mod 30; a freeze fires iff that run is a positive multiple of 30 |
| Stability.FiresOnThirtieth | main.py:222-226 | from 0, a run of standard frames fires on its 30th frame and not before; before that the counter equals the run length |
| Stability.ResetNeedsFullRun | main.py:227-228 | after a non-standard frame at k, none of frames k+1 … k+29 fires |
| Pipeline.ToggleAi | main.py:79-80 | toggling flips `ai_active` and changes nothing else |
| Pipeline.Calibrate | main.py:116-118 | off the every-fifth-frame cadence the verdict is unchanged; on it, calibration is OK iff all three thresholds pass; no other field changes |
| Pipeline.AiStep | main.py:164-239 | after the step the counter is below 30; a standard frame below the threshold adds one; a standard frame that reaches 30 resets the counter to 0 and saves iff now − last save ≥ 3.0; any other frame, including one with no detection, resets it without saving; a save happens only at `now` after the cooldown, sets the save time, names the file after `now`, and leaves the counter 0; nothing else changes |
| Pipeline.Step | main.py:84-107 | the frame count rises by exactly 1 even when the read fails; a failed read changes nothing else; calibration precedes detection, so the standard-plane test uses the verdict just computed; with AI on, a standard frame below the threshold adds one to the counter, and one that reaches 30 resets it to 0 and saves iff now − last save ≥ 3.0; with AI off the counter, save time and snapshot are untouched; the counter bound is preserved; a snapshot comes only on a read-OK, AI-on standard frame that reaches the threshold, and only after the cooldown |
| Pipeline.IsStandardTick | main.py:173-206 | a tick is a standard plane iff the first strict maximum among its detections above 0.4 passes the placement test; never when calibration is not OK |
| Pipeline.Run | main.py:84-107 | repeated `update` calls give one capture slot per tick, raise the frame count by the number of ticks, and leave the AI switch alone |
| Pipeline.FromInitial | main.py:37-41 | from start-up, the frame count equals the number of ticks and the counter stays below 30 |
| Pipeline.RunKeepsCounterBelowThreshold | main.py:213-237 | once the counter is below 30 it stays below 30 over any run |
| Pipeline.RunLastSaved | main.py:244-252 | after a run, the save time is the time of the last snapshot, or the initial save time if there was none |
| Pipeline.CaptureAfterCooldown | main.py:244-252 | every snapshot comes at least 3.0 s after the save time before its tick, and is named after its own time |
| Pipeline.CapturesSpaced | main.py:241-252 | two consecutive snapshots of a run are at least 3.0 s apart and have different file names |
| Pipeline.GoodTicksCountUp | main.py:213-221 | from a zero counter with AI on, fewer than 30 good ticks count up to their number, with no snapshot |
| Pipeline.ThirtiethGoodTickFreezes | main.py:222-226 | 30 consecutive good ticks from a zero counter give no snapshot on the first 29; the 30th saves iff the cooldown has passed; the counter is 0 afterwards either way |
| Pipeline.ScenarioOneSnapshot | main.py:84-107 | from start-up, thirty 640×480 frames with a 0.8 box at the centre give exactly one snapshot, on the 30th frame, once the clock is past the cooldown |
| Pipeline.ScenarioLowConfidenceNever | main.py:206 | the same frames at confidence 0.5 never give a snapshot, however many there are |
| Pipeline.DisabledAiHoldsCounter | main.py:93-94 | with AI off, any run leaves the counter and save time as they were and gives no snapshot |

## Left out

- Computing brightness, noise and focus from pixels (grey conversion, mean, standard deviation, Laplacian variance, main.py:120-132) is floating-point image numerics over library calls. The three values are inputs of a tick.
- YOLO inference (main.py:33, 169) is an opaque model. Its output is a sequence of boxes and confidences. The boxes' coordinates are assumed already truncated to `int` (main.py:191).
- Floating point: confidences, metrics and the band edges `size / 2 ± size * 0.15` are exact rationals in the model. For an integer centre this agrees with the source's double comparisons: when 20 divides the size the double edges are exactly 7·size/20 and 13·size/20, and otherwise the exact edges are at least 0.05 from every integer, far more than the rounding error for frame sizes of realistic magnitude.
- Drawing the overlay (rectangle, label, centre marker, main.py:208-211, 215-217, 230-234) does not affect any decision.
- The window, canvas, buttons and status colours (main.py:47-77, 96-102) are presentation only. The "SNAPSHOT SAVED" status text (main.py:255) and the printed messages are also left out.
- `MyVideoCapture` (main.py:258-293) is file and camera I/O, including seek-and-retry and random noise frames. A tick only records whether the read succeeded.
- `cv2.imwrite` and `time.time()` (main.py:242, 251) are I/O. The clock is the tick's `now`, and a save is returned as a `Capture` value instead of being written to disk.
- Scheduling of the loop with `window.after` (main.py:44, 107) is left out. A run is a sequence of ticks.
- Quality.StatusText: states only the two prefixes of the status line ("Status: CALIBRATION OK" and "WARNING: "), not the full message layout, which is display text.
- Quality.JoinMessages: states only that the joined text begins with the first issue's message, not the full `", "`-separated layout.
