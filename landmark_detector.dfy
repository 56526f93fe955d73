/** detect_landmarks: escalation over upsample levels, the per-level record
    trail, and 68-point prediction on the first face found. The detector and
    the predictor are parameters; each call may return or raise. */
module LandmarkDetector {
  import opened Wrappers
  import opened Text
  import opened DataModels

  const NO_FACE_REASON: string := "顔が検出されませんでした"
  const SUCCESS_REASON: string := "成功"
  const ERROR_PREFIX: string := "エラー: "

  function ErrorReason(message: string): (reason: string)
    ensures StartsWith(reason, ERROR_PREFIX) && reason[|ERROR_PREFIX|..] == message
  {
    ERROR_PREFIX + message
  }

  /** Raised when the detector fails at the first level: the except clause
      reads `current_info` before any iteration has bound it (Python 3.11+ wording). */
  const UNBOUND_CURRENT_INFO: Raised :=
    Raised(UnboundLocalError, "cannot access local variable 'current_info' where it is not associated with a value")

  /** One call `detector(img, upsample)`: the candidate regions, or the exception. */
  datatype DetectorCall = Faces(rects: seq<Rect>) | DetectorRaised(message: string)

  /** One call `predictor(img, rect)`: the parts of the shape, or the exception. */
  datatype PredictorCall = Shape(parts: seq<Point>) | PredictorRaised(message: string)

  type Detector = (Image, int) -> DetectorCall
  type Predictor = (Image, Rect) -> PredictorCall

  /** The upsample levels tried, in order, for a detection mode. */
  function UpsampleLevels(mode: string): (levels: seq<int>)
    ensures |levels| == (if mode == "high" then 5 else 4)
    ensures forall k :: 0 <= k < |levels| ==> levels[k] == k
  {
    if mode == "high" then [0, 1, 2, 3, 4] else [0, 1, 2, 3]
  }

  /** What the detector answers at each level, level by level. */
  function Calls(img: Image, levels: seq<int>, detector: Detector): (calls: seq<DetectorCall>)
    ensures |calls| == |levels|
    ensures forall k :: 0 <= k < |levels| ==> calls[k] == detector(img, levels[k])
  {
    seq(|levels|, k requires 0 <= k < |levels| => detector(img, levels[k]))
  }

  predicate HasFace(call: DetectorCall) {
    call.Faces? && |call.rects| > 0
  }

  predicate NoFace(call: DetectorCall) {
    call.Faces? && call.rects == []
  }

  // ---------------------------------------------------------------------------
  // The escalation loop as a function of the detector's answers

  /** The level locked in and the first candidate found there. */
  datatype Hit = Hit(level: int, rect: Rect)

  /** The loop's state: the values the appended records read as, how many
      trailing entries are the one object `current_info` still names, and the
      hit, once there is one. */
  datatype Scan = Scan(trail: seq<Info>, shared: nat, best: Option<Hit>)

  predicate ValidScan(s: Scan) {
    && s.shared <= |s.trail|
    && (s.shared == 0 <==> s.trail == [])
    && (forall k :: |s.trail| - s.shared <= k < |s.trail| ==> s.trail[k] == s.trail[|s.trail| - 1])
  }

  function Repeat(x: Info, n: nat): (r: seq<Info>)
    ensures |r| == n && forall k :: 0 <= k < n ==> r[k] == x
  {
    seq(n, _ => x)
  }

  /** One iteration at `level`. A detector exception rewrites the reason of the
      record `current_info` names and appends that record once more; with no
      record yet, it escapes. Otherwise a fresh record is appended, marked as a
      success when there is a candidate. */
  function Step(s: Scan, level: int, call: DetectorCall): (r: Result<Scan, Raised>)
    requires ValidScan(s)
    ensures r.Success? ==> ValidScan(r.value) && |r.value.trail| == |s.trail| + 1
    ensures r.Failure? <==> call.DetectorRaised? && s.trail == []
  {
    match call
    case DetectorRaised(message) =>
      if s.shared == 0 then Failure(UNBOUND_CURRENT_INFO)
      else
        var current := s.trail[|s.trail| - 1];
        var rewritten := Info(current.upsample, ErrorReason(message));
        Success(Scan(s.trail[..|s.trail| - s.shared] + Repeat(rewritten, s.shared + 1), s.shared + 1, None))
    case Faces(rects) =>
      if |rects| > 0 then Success(Scan(s.trail + [Info(level, SUCCESS_REASON)], 1, Some(Hit(level, rects[0]))))
      else Success(Scan(s.trail + [Info(level, NO_FACE_REASON)], 1, None))
  }

  /** The state after the loop has looked at the first n levels (or stopped
      earlier, at a hit or at an escaping exception). */
  function Run(levels: seq<int>, calls: seq<DetectorCall>, n: nat): (r: Result<Scan, Raised>)
    requires |calls| == |levels| && n <= |levels|
    ensures r.Success? ==> ValidScan(r.value) && |r.value.trail| <= n
  {
    if n == 0 then Success(Scan([], 0, None))
    else
      var prev := Run(levels, calls, n - 1);
      if prev.Failure? || prev.value.best.Some? then prev
      else Step(prev.value, levels[n - 1], calls[n - 1])
  }

  /** The landmarks built from one predictor call, or None when the call (or
      reading one of its 68 parts) raises. */
  function PredictLandmarks(call: PredictorCall): (r: Option<Landmarks>)
    ensures r.Some? <==> call.Shape? && |call.parts| >= NUM_LANDMARKS
    ensures r.Some? ==> IsLandmarkSet(r.value)
    ensures r.Some? ==> forall k :: 0 <= k < NUM_LANDMARKS ==>
      r.value[k] == Point(ToInt32(call.parts[k].x), ToInt32(call.parts[k].y))
    ensures r.Some? && Int32Points(call.parts[..NUM_LANDMARKS]) ==> r.value == call.parts[..NUM_LANDMARKS]
  {
    match call
    case Shape(parts) =>
      if |parts| >= NUM_LANDMARKS then Some(CastLandmarks(parts[..NUM_LANDMARKS])) else None
    case PredictorRaised(_) => None
  }

  /** `landmarks_list` after predicting on every region of `rects`, skipping those that raise. */
  function PredictAll(img: Image, predictor: Predictor, rects: seq<Rect>): (r: seq<Landmarks>)
    ensures |r| <= |rects|
    ensures forall k :: 0 <= k < |r| ==> IsLandmarkSet(r[k])
  {
    if rects == [] then []
    else
      var prev := PredictAll(img, predictor, rects[..|rects| - 1]);
      match PredictLandmarks(predictor(img, rects[|rects| - 1]))
      case Some(lm) => prev + [lm]
      case None => prev
  }

  /** The positions in `rects` whose prediction succeeds, in order. */
  function KeptRegions(img: Image, predictor: Predictor, rects: seq<Rect>): seq<nat> {
    if rects == [] then []
    else
      var prev := KeptRegions(img, predictor, rects[..|rects| - 1]);
      if PredictLandmarks(predictor(img, rects[|rects| - 1])).Some? then prev + [|rects| - 1] else prev
  }

  /** The prediction loop keeps exactly the regions whose prediction succeeds,
      in region order, each with its own prediction. */
  lemma {:induction false} PredictAllKeepsSuccesses(img: Image, predictor: Predictor, rects: seq<Rect>)
    ensures var r, idx := PredictAll(img, predictor, rects), KeptRegions(img, predictor, rects);
      && |idx| == |r|
      && (forall k :: 0 <= k < |idx| ==> idx[k] < |rects| && PredictLandmarks(predictor(img, rects[idx[k]])) == Some(r[k]))
      && (forall k, l :: 0 <= k < l < |idx| ==> idx[k] < idx[l])
      && (forall j :: 0 <= j < |rects| && PredictLandmarks(predictor(img, rects[j])).Some? ==> j in idx)
  {
    KeptPairsWithPredictions(img, predictor, rects);
    KeptRegionsIncrease(img, predictor, rects);
    KeptRegionsCover(img, predictor, rects);
  }

  /** Each kept landmark set is the prediction of the region it is paired with. */
  lemma {:induction false} KeptPairsWithPredictions(img: Image, predictor: Predictor, rects: seq<Rect>)
    ensures var r, idx := PredictAll(img, predictor, rects), KeptRegions(img, predictor, rects);
      && |idx| == |r|
      && (forall k :: 0 <= k < |idx| ==> idx[k] < |rects| && PredictLandmarks(predictor(img, rects[idx[k]])) == Some(r[k]))
  {
    if rects != [] {
      var n := |rects|;
      var init := rects[..n - 1];
      KeptPairsWithPredictions(img, predictor, init);
      var r, idx := PredictAll(img, predictor, rects), KeptRegions(img, predictor, rects);
      var r0, idx0 := PredictAll(img, predictor, init), KeptRegions(img, predictor, init);
      var last := PredictLandmarks(predictor(img, rects[n - 1]));
      assert r == (if last.Some? then r0 + [last.value] else r0);
      assert idx == (if last.Some? then idx0 + [n - 1] else idx0);
      forall k | 0 <= k < |idx|
        ensures idx[k] < n && PredictLandmarks(predictor(img, rects[idx[k]])) == Some(r[k])
      {
        if k < |idx0| {
          assert idx[k] == idx0[k] && r[k] == r0[k] && rects[idx0[k]] == init[idx0[k]];
        }
      }
    }
  }

  /** Positions below `bound`, strictly increasing. */
  predicate Increasing(idx: seq<nat>, bound: nat) {
    && (forall k :: 0 <= k < |idx| ==> idx[k] < bound)
    && (forall k, l :: 0 <= k < l < |idx| ==> idx[k] < idx[l])
  }

  /** The kept positions are strictly increasing and below |rects|. */
  lemma {:induction false} KeptRegionsIncrease(img: Image, predictor: Predictor, rects: seq<Rect>)
    ensures Increasing(KeptRegions(img, predictor, rects), |rects|)
  {
    if rects != [] {
      var n := |rects|;
      KeptRegionsIncrease(img, predictor, rects[..n - 1]);
      var idx0 := KeptRegions(img, predictor, rects[..n - 1]);
      var idx := KeptRegions(img, predictor, rects);
      if PredictLandmarks(predictor(img, rects[n - 1])).Some? {
        assert idx == idx0 + [n - 1];
        forall k | 0 <= k < |idx| ensures idx[k] < n && (k < |idx0| ==> idx[k] == idx0[k] < n - 1) {
          if k < |idx0| { assert idx[k] == idx0[k]; }
        }
      } else {
        assert idx == idx0;
      }
    }
  }

  /** Every region whose prediction succeeds is kept. */
  lemma {:induction false} KeptRegionsCover(img: Image, predictor: Predictor, rects: seq<Rect>)
    ensures forall j :: 0 <= j < |rects| && PredictLandmarks(predictor(img, rects[j])).Some? ==>
      j in KeptRegions(img, predictor, rects)
  {
    if rects != [] {
      var n := |rects|;
      var init := rects[..n - 1];
      KeptRegionsCover(img, predictor, init);
      forall j | 0 <= j < n && PredictLandmarks(predictor(img, rects[j])).Some?
        ensures j in KeptRegions(img, predictor, rects)
      {
        if j < n - 1 {
          assert rects[j] == init[j];
        }
      }
    }
  }

  /** On a single region, the prediction loop yields that region's landmarks,
      or nothing when its prediction raises. */
  lemma PredictOne(img: Image, predictor: Predictor, rect: Rect)
    ensures PredictAll(img, predictor, [rect]) ==
      match PredictLandmarks(predictor(img, rect))
      case Some(lm) => [lm]
      case None => []
  {
    assert [rect][..0] == [];
  }

  /** What detect_landmarks returns (or raises) on `img`, trying `levels`. */
  function Detect(img: Image, levels: seq<int>, detector: Detector, predictor: Predictor)
    : (r: Result<DetectionValue, Raised>)
    ensures r.Success? ==> |r.value.detectionInfo| <= |levels|
    ensures r.Success? ==> |r.value.landmarksList| <= 1
    ensures r.Success? ==> forall k :: 0 <= k < |r.value.landmarksList| ==> IsLandmarkSet(r.value.landmarksList[k])
    ensures r.Success? ==> (r.value.isDetected <==> r.value.bestUpsample.Some?)
    ensures r.Success? && !r.value.isDetected ==> r.value.landmarksList == []
  {
    match Run(levels, Calls(img, levels, detector), |levels|)
    case Failure(e) => Failure(e)
    case Success(s) =>
      var bestRects := if s.best.Some? then [s.best.value.rect] else [];
      Success(DetectionValue(
        PredictAll(img, predictor, bestRects),
        if s.best.Some? then Some(s.best.value.level) else None,
        s.trail,
        s.best.Some?))
  }

  // ---------------------------------------------------------------------------
  // What the trail records

  /** The detector at level k+1 did not raise, so record k was not rewritten afterwards. */
  predicate LastOfRun(calls: seq<DetectorCall>, trail: seq<Info>, k: int)
    requires 0 <= k < |trail| <= |calls|
  {
    k + 1 == |trail| || !calls[k + 1].DetectorRaised?
  }

  /** What entry k of the trail reads as, given the detector's answer at level k. */
  predicate RecordFacts(levels: seq<int>, calls: seq<DetectorCall>, trail: seq<Info>, k: int)
    requires |calls| == |levels| && |trail| <= |levels| && 0 <= k < |trail|
  {
    && (calls[k].Faces? ==> trail[k].upsample == levels[k])
    && (NoFace(calls[k]) && LastOfRun(calls, trail, k) ==> trail[k].reason == NO_FACE_REASON)
    && (calls[k].DetectorRaised? ==> 0 < k && trail[k] == trail[k - 1])
    && (calls[k].DetectorRaised? && LastOfRun(calls, trail, k) ==> trail[k].reason == ErrorReason(calls[k].message))
  }

  predicate TrailFacts(levels: seq<int>, calls: seq<DetectorCall>, trail: seq<Info>)
    requires |calls| == |levels| && |trail| <= |levels|
  {
    forall k :: 0 <= k < |trail| ==> RecordFacts(levels, calls, trail, k)
  }

  /** How far the scan got after n levels, and the run of shared records. */
  predicate ScanShape(levels: seq<int>, calls: seq<DetectorCall>, s: Scan, n: nat)
    requires |calls| == |levels| && n <= |levels|
  {
    && ValidScan(s)
    && |s.trail| <= n
    && (s.best.None? ==> |s.trail| == n && forall k :: 0 <= k < n ==> !HasFace(calls[k]))
    && (s.best.Some? ==>
          var j := |s.trail| - 1;
          && 0 <= j
          && HasFace(calls[j])
          && (forall k :: 0 <= k < j ==> !HasFace(calls[k]))
          && s.best.value == Hit(levels[j], calls[j].rects[0])
          && s.trail[j] == Info(levels[j], SUCCESS_REASON))
    && (s.shared > 0 ==>
          && calls[|s.trail| - s.shared].Faces?
          && forall k :: |s.trail| - s.shared < k < |s.trail| ==> calls[k].DetectorRaised?)
  }

  lemma StepOnRaise(levels: seq<int>, calls: seq<DetectorCall>, s: Scan, n: nat)
    requires |calls| == |levels| && n < |levels| && ValidScan(s)
    requires s.best.None? && ScanShape(levels, calls, s, n) && TrailFacts(levels, calls, s.trail)
    requires calls[n].DetectorRaised? && s.trail != []
    ensures var r := Step(s, levels[n], calls[n]);
      r.Success? && ScanShape(levels, calls, r.value, n + 1) && TrailFacts(levels, calls, r.value.trail)
  {
    var t := s.trail;
    var start := n - s.shared;
    var t' := Step(s, levels[n], calls[n]).value.trail;
    var rec := Info(t[n - 1].upsample, ErrorReason(calls[n].message));
    assert t' == t[..start] + Repeat(rec, s.shared + 1);
    forall k | 0 <= k < |t'| ensures RecordFacts(levels, calls, t', k) {
      if k < start {
        assert t'[k] == t[k] && RecordFacts(levels, calls, t, k);
        if 0 < k { assert t'[k - 1] == t[k - 1]; }
      } else if k == start {
        assert RecordFacts(levels, calls, t, start);
        assert t[start] == t[n - 1];
        if start + 1 < n { assert calls[start + 1].DetectorRaised?; }
      } else {
        assert calls[k].DetectorRaised?;
        assert t'[k] == rec && t'[k - 1] == rec;
      }
    }
  }

  lemma StepOnFaces(levels: seq<int>, calls: seq<DetectorCall>, s: Scan, n: nat)
    requires |calls| == |levels| && n < |levels| && ValidScan(s)
    requires s.best.None? && ScanShape(levels, calls, s, n) && TrailFacts(levels, calls, s.trail)
    requires calls[n].Faces?
    ensures var r := Step(s, levels[n], calls[n]);
      r.Success? && ScanShape(levels, calls, r.value, n + 1) && TrailFacts(levels, calls, r.value.trail)
  {
    var t := s.trail;
    var t' := Step(s, levels[n], calls[n]).value.trail;
    assert t'[..n] == t;
    forall k | 0 <= k < |t'| ensures RecordFacts(levels, calls, t', k) {
      if k < n {
        assert t'[k] == t[k] && RecordFacts(levels, calls, t, k);
        if 0 < k { assert t'[k - 1] == t[k - 1]; }
      }
    }
  }

  /** Everything the loop establishes about the state after n levels. */
  lemma {:induction false} RunFacts(levels: seq<int>, calls: seq<DetectorCall>, n: nat)
    requires |calls| == |levels| && n <= |levels|
    requires Run(levels, calls, n).Success?
    ensures ScanShape(levels, calls, Run(levels, calls, n).value, n)
    ensures TrailFacts(levels, calls, Run(levels, calls, n).value.trail)
  {
    if n > 0 {
      var prev := Run(levels, calls, n - 1);
      assert prev.Success?;
      RunFacts(levels, calls, n - 1);
      var s := prev.value;
      if s.best.None? {
        assert Run(levels, calls, n) == Step(s, levels[n - 1], calls[n - 1]);
        if calls[n - 1].DetectorRaised? {
          StepOnRaise(levels, calls, s, n - 1);
        } else {
          StepOnFaces(levels, calls, s, n - 1);
        }
      } else {
        assert Run(levels, calls, n) == prev;
        SettledShape(levels, calls, s, n);
      }
    }
  }

  /** A scan that has locked in keeps its shape when one more level passes. */
  lemma {:induction false} SettledShape(levels: seq<int>, calls: seq<DetectorCall>, s: Scan, n: nat)
    requires |calls| == |levels| && 0 < n <= |levels|
    requires s.best.Some? && ScanShape(levels, calls, s, n - 1)
    ensures ScanShape(levels, calls, s, n)
  {
  }

  /** Once the loop has stopped (hit or escape), later levels change nothing. */
  lemma {:induction false} RunSettles(levels: seq<int>, calls: seq<DetectorCall>, n: nat, m: nat)
    requires |calls| == |levels| && n <= m <= |levels|
    requires Run(levels, calls, n).Failure? || Run(levels, calls, n).value.best.Some?
    ensures Run(levels, calls, m) == Run(levels, calls, n)
    decreases m
  {
    if m > n {
      RunSettles(levels, calls, n, m - 1);
    }
  }

  /** The run escapes exactly when the detector raises at the first level. */
  lemma {:induction false} RunEscapes(levels: seq<int>, calls: seq<DetectorCall>, n: nat)
    requires |calls| == |levels| && 0 < n <= |levels|
    ensures Run(levels, calls, n).Failure? <==> calls[0].DetectorRaised?
    ensures Run(levels, calls, n).Failure? ==> Run(levels, calls, n).error == UNBOUND_CURRENT_INFO
  {
    if n == 1 {
      assert Run(levels, calls, 1) == Step(Scan([], 0, None), levels[0], calls[0]);
    } else {
      RunEscapes(levels, calls, n - 1);
      var prev := Run(levels, calls, n - 1);
      if prev.Success? && prev.value.best.None? {
        RunFacts(levels, calls, n - 1);
      }
    }
  }

  /** Runs that agree on the answers they look at agree. */
  lemma {:induction false} RunReadsPrefix(levels: seq<int>, calls: seq<DetectorCall>, calls': seq<DetectorCall>, n: nat)
    requires |calls| == |levels| == |calls'| && n <= |levels|
    requires calls[..n] == calls'[..n]
    ensures Run(levels, calls, n) == Run(levels, calls', n)
  {
    if n > 0 {
      assert calls[..n - 1] == calls'[..n - 1];
      assert calls[n - 1] == calls[..n][n - 1];
      RunReadsPrefix(levels, calls, calls', n - 1);
    }
  }

  // ---------------------------------------------------------------------------
  // Properties of detect_landmarks

  /** The detector raising at the first level escapes detect_landmarks as an
      UnboundLocalError; at any later level it does not escape. */
  lemma DetectEscapesOnlyAtFirstLevel(img: Image, levels: seq<int>, detector: Detector, predictor: Predictor)
    ensures Detect(img, levels, detector, predictor).Failure? <==>
              |levels| > 0 && detector(img, levels[0]).DetectorRaised?
    ensures Detect(img, levels, detector, predictor).Failure? ==>
              Detect(img, levels, detector, predictor).error == UNBOUND_CURRENT_INFO
  {
    if |levels| > 0 {
      RunEscapes(levels, Calls(img, levels, detector), |levels|);
    }
  }

  /** Without an escape, a face is detected exactly when some level yields a candidate. */
  lemma DetectedIffSomeLevelHasFace(img: Image, levels: seq<int>, detector: Detector, predictor: Predictor)
    requires Detect(img, levels, detector, predictor).Success?
    ensures Detect(img, levels, detector, predictor).value.isDetected <==>
              exists j :: 0 <= j < |levels| && HasFace(detector(img, levels[j]))
  {
    var calls := Calls(img, levels, detector);
    RunFacts(levels, calls, |levels|);
  }

  /** The first level with a candidate is locked in: the trail ends there with
      a success record, no later level is looked at, and the landmarks come
      from the first candidate of that level (none if the predictor raises). */
  lemma DetectLocksFirstFace(img: Image, levels: seq<int>, detector: Detector, predictor: Predictor, j: nat)
    requires j < |levels| && HasFace(detector(img, levels[j]))
    requires forall k :: 0 <= k < j ==> !HasFace(detector(img, levels[k]))
    requires Detect(img, levels, detector, predictor).Success?
    ensures var v := Detect(img, levels, detector, predictor).value;
      && v.isDetected
      && v.bestUpsample == Some(levels[j])
      && |v.detectionInfo| == j + 1
      && v.detectionInfo[j] == Info(levels[j], SUCCESS_REASON)
      && v.landmarksList == PredictAll(img, predictor, [detector(img, levels[j]).rects[0]])
      && var shape := PredictLandmarks(predictor(img, detector(img, levels[j]).rects[0]));
      && (v.landmarksList == [] <==> shape.None?)
      && (shape.Some? ==> v.landmarksList == [shape.value])
  {
    var calls := Calls(img, levels, detector);
    RunFacts(levels, calls, |levels|);
    PredictOne(img, predictor, detector(img, levels[j]).rects[0]);
  }

  /** Levels after the first one with a candidate are never evaluated: two
      detectors that agree up to it give the same result. */
  lemma {:induction false} DetectIgnoresLaterLevels(img: Image, levels: seq<int>, detector: Detector, detector': Detector,
                                 predictor: Predictor, j: nat)
    requires j < |levels| && HasFace(detector(img, levels[j]))
    requires forall k :: 0 <= k <= j ==> detector(img, levels[k]) == detector'(img, levels[k])
    ensures Detect(img, levels, detector, predictor) == Detect(img, levels, detector', predictor)
  {
    var calls, calls' := Calls(img, levels, detector), Calls(img, levels, detector');
    assert calls[..j + 1] == calls'[..j + 1];
    RunIgnoresLaterCalls(levels, calls, calls', j);
  }

  /** The loop's final state depends only on the answers up to the first hit. */
  lemma {:induction false} RunIgnoresLaterCalls(levels: seq<int>, calls: seq<DetectorCall>, calls': seq<DetectorCall>, j: nat)
    requires |calls| == |levels| == |calls'| && j < |levels|
    requires HasFace(calls[j]) && calls[..j + 1] == calls'[..j + 1]
    ensures Run(levels, calls, |levels|) == Run(levels, calls', |levels|)
  {
    RunReadsPrefix(levels, calls, calls', j + 1);
    HitStops(levels, calls, j);
    RunSettles(levels, calls, j + 1, |levels|);
    RunSettles(levels, calls', j + 1, |levels|);
  }

  /** After a level with a candidate, the loop has stopped. */
  lemma {:induction false} HitStops(levels: seq<int>, calls: seq<DetectorCall>, j: nat)
    requires |calls| == |levels| && j < |levels| && HasFace(calls[j])
    ensures Run(levels, calls, j + 1).Failure? || Run(levels, calls, j + 1).value.best.Some?
  {
    var prev := Run(levels, calls, j);
    if prev.Success? && prev.value.best.None? {
      assert Run(levels, calls, j + 1) == Step(prev.value, levels[j], calls[j]);
    }
  }

  /** With no candidate at any level, one record per level is kept, nothing is
      detected, no level is reported and no landmarks are predicted. */
  lemma DetectWithoutFace(img: Image, levels: seq<int>, detector: Detector, predictor: Predictor)
    requires forall j :: 0 <= j < |levels| ==> !HasFace(detector(img, levels[j]))
    requires Detect(img, levels, detector, predictor).Success?
    ensures var v := Detect(img, levels, detector, predictor).value;
      !v.isDetected && v.bestUpsample.None? && v.landmarksList == [] && |v.detectionInfo| == |levels|
  {
    var calls := Calls(img, levels, detector);
    RunFacts(levels, calls, |levels|);
  }

  /** When every level answers with no candidate and none raises, the trail is
      one "no face" record per level, in level order. */
  lemma DetectAllLevelsEmpty(img: Image, levels: seq<int>, detector: Detector, predictor: Predictor)
    requires forall j :: 0 <= j < |levels| ==> NoFace(detector(img, levels[j]))
    ensures Detect(img, levels, detector, predictor) ==
      Success(DetectionValue([], None, seq(|levels|, k requires 0 <= k < |levels| => Info(levels[k], NO_FACE_REASON)), false))
  {
    var calls := Calls(img, levels, detector);
    DetectEscapesOnlyAtFirstLevel(img, levels, detector, predictor);
    DetectWithoutFace(img, levels, detector, predictor);
    RunFacts(levels, calls, |levels|);
    var t := Run(levels, calls, |levels|).value.trail;
    forall k | 0 <= k < |levels| ensures t[k] == Info(levels[k], NO_FACE_REASON) {
      assert RecordFacts(levels, calls, t, k);
    }
    assert t == seq(|levels|, k requires 0 <= k < |levels| => Info(levels[k], NO_FACE_REASON));
  }

  /** A detector exception at a later level duplicates the previous record
      (the same object, appended again) and marks it as an error; the record
      keeps the level at which that object was created, and the last exception
      of a consecutive run supplies the message. A "no face" record keeps its
      reason unless the very next level raises. */
  lemma DetectTrailRecords(img: Image, levels: seq<int>, detector: Detector, predictor: Predictor, k: nat)
    requires Detect(img, levels, detector, predictor).Success?
    requires k < |Detect(img, levels, detector, predictor).value.detectionInfo|
    ensures RecordFacts(levels, Calls(img, levels, detector), Detect(img, levels, detector, predictor).value.detectionInfo, k)
  {
    RunFacts(levels, Calls(img, levels, detector), |levels|);
  }

  // ---------------------------------------------------------------------------
  // The loop itself

  /** Exactly the trailing `shared` entries of infos are the object `current`
      names (none when `current_info` is still unbound). */
  predicate Shares(infos: seq<DetectionInfo>, current: DetectionInfo?, shared: nat) {
    && shared <= |infos|
    && (current == null <==> shared == 0)
    && forall k :: 0 <= k < |infos| ==> (infos[k] == current <==> |infos| - shared <= k)
  }

  /** One pass of the escalation loop of detect_landmarks: call the detector at
      `level`, record the outcome, append the record. `escaped` is set when the
      detector raises before any record exists (the UnboundLocalError). */
  method TryLevel(img: Image, detector: Detector, level: int, bestRects: seq<Rect>, bestUpsample: Option<int>,
                  infos: seq<DetectionInfo>, current: DetectionInfo?, ghost s: Scan)
    returns (escaped: bool, infos': seq<DetectionInfo>, current': DetectionInfo?,
             bestRects': seq<Rect>, bestUpsample': Option<int>)
    requires ValidScan(s) && s.best.None? && bestRects == []
    requires InfoView(infos) == s.trail && Shares(infos, current, s.shared)
    modifies current
    ensures escaped <==> Step(s, level, detector(img, level)).Failure?
    ensures !escaped ==> InfoView(infos') == Step(s, level, detector(img, level)).value.trail
    ensures !escaped ==> Shares(infos', current', Step(s, level, detector(img, level)).value.shared)
    ensures !escaped ==> (bestRects' != [] <==> Step(s, level, detector(img, level)).value.best.Some?)
    ensures !escaped && bestRects' != [] ==>
      var hit := Step(s, level, detector(img, level)).value.best.value;
      bestRects' == [hit.rect] && bestUpsample' == Some(hit.level)
    ensures bestRects' == [] ==> bestUpsample' == bestUpsample
    ensures current' == null || current' == current || fresh(current')
  {
    infos', current', bestRects', bestUpsample' := infos, current, bestRects, bestUpsample;
    var call := detector(img, level);
    if call.DetectorRaised? {
      if current == null {
        return true, infos', current', bestRects', bestUpsample';
      }
      current.reason := ErrorReason(call.message);
    } else {
      current' := new DetectionInfo(level, NO_FACE_REASON);
      if |call.rects| > 0 {
        if bestRects == [] {
          bestRects' := [call.rects[0]];
          bestUpsample' := Some(level);
          current'.reason := SUCCESS_REASON;
        }
      }
    }
    infos' := infos + [current'];
    escaped := false;
    ghost var t := Step(s, level, call).value;
    assert InfoView(infos') == t.trail by {
      forall k | 0 <= k < |infos'|
        ensures InfoView(infos')[k] == t.trail[k]
      {
        if k < |infos| && infos[k] != current' {
          assert InfoView(infos')[k] == InfoView(infos)[k];
        }
      }
    }
  }

  /** The prediction loop of detect_landmarks: one landmark set per region whose
      prediction does not raise, in order. */
  method PredictEach(img: Image, predictor: Predictor, rects: seq<Rect>) returns (landmarksList: seq<Landmarks>)
    ensures landmarksList == PredictAll(img, predictor, rects)
  {
    landmarksList := [];
    var j := 0;
    while j < |rects|
      invariant 0 <= j <= |rects|
      invariant landmarksList == PredictAll(img, predictor, rects[..j])
    {
      var landmarks := PredictLandmarks(predictor(img, rects[j]));
      if landmarks.Some? {
        landmarksList := landmarksList + [landmarks.value];
      }
      assert rects[..j + 1][..j] == rects[..j];
      j := j + 1;
    }
    assert rects[..j] == rects;
  }

  /** detect_landmarks (landmark_detector.py). */
  method DetectLandmarks(processedImg: Image, detector: Detector, predictor: Predictor, config: Config)
    returns (r: Result<DetectionResult, Raised>)
    ensures r.Failure? ==>
      Detect(processedImg, UpsampleLevels(config.detectionMode), detector, predictor) == Failure(r.error)
    ensures r.Success? ==> fresh(r.value)
    ensures r.Success? ==>
      Detect(processedImg, UpsampleLevels(config.detectionMode), detector, predictor) == Success(r.value.Snapshot())
  {
    var upsampleTimes := UpsampleLevels(config.detectionMode);
    ghost var calls := Calls(processedImg, upsampleTimes, detector);
    var bestRects: seq<Rect> := [];
    var bestUpsample: Option<int> := Some(0);
    var detectionInfo: seq<DetectionInfo> := [];
    var currentInfo: DetectionInfo? := null;
    var i := 0;
    while i < |upsampleTimes| && bestRects == []
      invariant 0 <= i <= |upsampleTimes|
      invariant Run(upsampleTimes, calls, i).Success?
      invariant InfoView(detectionInfo) == Run(upsampleTimes, calls, i).value.trail
      invariant Shares(detectionInfo, currentInfo, Run(upsampleTimes, calls, i).value.shared)
      invariant bestRects == [] <==> Run(upsampleTimes, calls, i).value.best.None?
      invariant bestRects == [] ==> bestUpsample == Some(0)
      invariant bestRects != [] ==>
        var hit := Run(upsampleTimes, calls, i).value.best.value;
        bestRects == [hit.rect] && bestUpsample == Some(hit.level)
      invariant currentInfo != null ==> fresh(currentInfo)
    {
      ghost var s := Run(upsampleTimes, calls, i).value;
      assert Run(upsampleTimes, calls, i + 1) == Step(s, upsampleTimes[i], detector(processedImg, upsampleTimes[i]));
      var escaped;
      escaped, detectionInfo, currentInfo, bestRects, bestUpsample :=
        TryLevel(processedImg, detector, upsampleTimes[i], bestRects, bestUpsample, detectionInfo, currentInfo, s);
      if escaped {
        RunSettles(upsampleTimes, calls, i + 1, |upsampleTimes|);
        return Failure(UNBOUND_CURRENT_INFO);
      }
      i := i + 1;
    }
    if bestRects != [] {
      RunSettles(upsampleTimes, calls, i, |upsampleTimes|);
    }

    var isDetected := |bestRects| > 0;
    var landmarksList: seq<Landmarks> := [];
    if isDetected {
      landmarksList := PredictEach(processedImg, predictor, bestRects);
    }
    if !isDetected {
      bestUpsample := None;
    }
    var result := new DetectionResult(landmarksList, bestUpsample, detectionInfo, isDetected);
    return Success(result);
  }
}
