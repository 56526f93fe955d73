/** Single-image inference (inference.py): landmarks for one pixel buffer or
    one image file, with the template substituted when no face is found. */
module Inference {
  import opened Wrappers
  import opened Text
  import opened DataModels
  import opened LandmarkDetector
  import Processor

  const MODEL_MISSING_PREFIX: string := "学習済みモデルが見つかりません: "
  const LOAD_FAILED_PREFIX: string := "画像の読み込みに失敗しました: "
  /** `str(e)` of the AttributeError raised by `result.bounding_box`. */
  const NO_BOUNDING_BOX: string := "'DetectionResult' object has no attribute 'bounding_box'"

  /** A face region as `(x, y, w, h)`. */
  datatype Box = Box(x: int, y: int, w: int, h: int)

  /** The triple both entry points return: landmarks, whether a face was
      detected, and the bounding box. */
  datatype Inferred = Inferred(landmarks: Landmarks, isDetected: bool, boundingBox: Option<Box>)

  /** What surrounds a call: the configuration `Config()` builds, whether a
      path exists, how `dlib.shape_predictor(path)` ends, preprocess_image,
      and the face detector. */
  datatype Host = Host(
    defaultConfig: Config,
    pathExists: string -> bool,
    shapePredictor: string -> Result<Predictor, Raised>,
    preprocess: Image -> Image,
    detector: Detector)

  /** How `cv2.imdecode(np.fromfile(path, ...))` ends: an image, None, or an
      exception. */
  datatype Decoded = Decoded(img: Image) | DecodedNone | DecodeRaised(message: string)

  /** The two readers of landmarks_from_path: `np.load(path)` and the image
      decoder. */
  datatype Readers = Readers(npyLoad: string -> Result<Image, string>, decode: string -> Decoded)

  // ---------------------------------------------------------------------------
  // _ensure_predictor

  /** _ensure_predictor: a missing model file raises FileNotFoundError naming
      it; otherwise the predictor is loaded from it. */
  function EnsurePredictor(modelPath: string, host: Host): (r: Result<Predictor, Raised>)
    ensures r.Failure? <==> !host.pathExists(modelPath) || host.shapePredictor(modelPath).Failure?
    ensures !host.pathExists(modelPath) ==> r.error == Raised(FileNotFoundError, MODEL_MISSING_PREFIX + modelPath)
    ensures host.pathExists(modelPath) ==> r == host.shapePredictor(modelPath)
  {
    if !host.pathExists(modelPath) then Failure(Raised(FileNotFoundError, MODEL_MISSING_PREFIX + modelPath))
    else host.shapePredictor(modelPath)
  }

  /** `cfg = config or Config()`, then `pred = predictor or
      _ensure_predictor(cfg.LEARNED_MODEL_PATH)`. */
  function Collaborators(config: Option<Config>, predictor: Option<Predictor>, host: Host)
    : (r: Result<(Config, Predictor), Raised>)
    ensures r.Success? ==> r.value.0 == (if config.Some? then config.value else host.defaultConfig)
    ensures predictor.Some? ==> r.Success? && r.value.1 == predictor.value
    ensures predictor.None? ==>
      var path := (if config.Some? then config.value else host.defaultConfig).learnedModelPath;
      (r.Failure? <==> EnsurePredictor(path, host).Failure?)
      && (r.Failure? ==> r.error == EnsurePredictor(path, host).error)
  {
    var cfg := if config.Some? then config.value else host.defaultConfig;
    if predictor.Some? then Success((cfg, predictor.value))
    else
      match EnsurePredictor(cfg.learnedModelPath, host)
      case Failure(e) => Failure(e)
      case Success(pred) => Success((cfg, pred))
  }

  // ---------------------------------------------------------------------------
  // landmarks_from_array

  /** The consistency rule of landmarks_from_array: "detected" without
      landmarks becomes "not detected", but, unlike process_image, the level
      is left as it was. */
  function ReconcileKeepingLevel(d: DetectionValue): (d': DetectionValue)
    ensures d'.isDetected <==> d.isDetected && d.landmarksList != []
    ensures d'.bestUpsample == d.bestUpsample
    ensures d'.landmarksList == d.landmarksList && d'.detectionInfo == d.detectionInfo
  {
    if d.isDetected && |d.landmarksList| == 0 then d.(isDetected := false) else d
  }

  /** The triple returned once detection has completed with d0, the bounding
      box being None, the default of the field the call reads. */
  function InferredFrom(d0: DetectionValue, cfg: Config): (r: Inferred)
    ensures r.isDetected <==> d0.isDetected && d0.landmarksList != []
    ensures r.isDetected ==> r.landmarks == CastLandmarks(d0.landmarksList[0])
    ensures !r.isDetected ==> r.landmarks == CastLandmarks(cfg.templateLandmarks)
    ensures r.boundingBox.None?
  {
    var d := ReconcileKeepingLevel(d0);
    var landmarks := if d.isDetected then d.landmarksList[0] else cfg.templateLandmarks;
    Inferred(CastLandmarks(landmarks), d.isDetected, None)
  }

  /** landmarks_from_array with its third value read as None. */
  function ArrayInference(img: Image, config: Option<Config>, predictor: Option<Predictor>, host: Host)
    : (r: Result<Inferred, Raised>)
  {
    match Collaborators(config, predictor, host)
    case Failure(e) => Failure(e)
    case Success(cp) =>
      match Detect(host.preprocess(img), UpsampleLevels(cp.0.detectionMode), host.detector, cp.1)
      case Failure(e) => Failure(e)
      case Success(d0) => Success(InferredFrom(d0, cp.0))
  }

  /** landmarks_from_array as written: once detection completes, reading
      `result.bounding_box` from a data_models.DetectionResult raises. */
  function ArrayInferenceAsWritten(img: Image, config: Option<Config>, predictor: Option<Predictor>, host: Host)
    : (r: Result<Inferred, Raised>)
  {
    match Collaborators(config, predictor, host)
    case Failure(e) => Failure(e)
    case Success(cp) =>
      match Detect(host.preprocess(img), UpsampleLevels(cp.0.detectionMode), host.detector, cp.1)
      case Failure(e) => Failure(e)
      case Success(d0) => Failure(Raised(AttributeError, NO_BOUNDING_BOX))
  }

  /** As written, landmarks_from_array never returns: every call that the
      corrected version answers raises AttributeError instead, and the others
      fail the same way in both. */
  lemma AsWrittenNeverReturns(img: Image, config: Option<Config>, predictor: Option<Predictor>, host: Host)
    ensures ArrayInferenceAsWritten(img, config, predictor, host).Failure?
    ensures ArrayInference(img, config, predictor, host).Success? ==>
      ArrayInferenceAsWritten(img, config, predictor, host).error == Raised(AttributeError, NO_BOUNDING_BOX)
    ensures ArrayInference(img, config, predictor, host).Failure? ==>
      ArrayInferenceAsWritten(img, config, predictor, host) == ArrayInference(img, config, predictor, host)
  {
  }

  /** A concrete call that shows it: a detector that finds no face and a
      predictor given by the caller. The corrected call returns the template,
      the call as written raises AttributeError. */
  lemma AsWrittenCounterexample(template: Landmarks, predictor: Predictor)
    requires IsLandmarkSet(template)
    ensures var config := Config("normal", template, "out", "model.dat");
      var host := Host(config, p => true, p => Success(predictor), i => i, (i, l) => Faces([]));
      && ArrayInference([], Some(config), Some(predictor), host) == Success(Inferred(template, false, None))
      && ArrayInferenceAsWritten([], Some(config), Some(predictor), host) == Failure(Raised(AttributeError, NO_BOUNDING_BOX))
  {
    var config := Config("normal", template, "out", "model.dat");
    var host := Host(config, p => true, p => Success(predictor), i => i, (i, l) => Faces([]));
    var levels := UpsampleLevels("normal");
    DetectAllLevelsEmpty([], levels, host.detector, predictor);
  }

  /** The corrected landmarks_from_array: its landmarks are the detected set
      exactly when it reports a face, and the template cast to int32
      otherwise; a detected set always has 68 int32 points. */
  lemma ArrayInferenceResult(img: Image, config: Option<Config>, predictor: Option<Predictor>, host: Host)
    requires ArrayInference(img, config, predictor, host).Success?
    ensures var r := ArrayInference(img, config, predictor, host).value;
      var cfg := if config.Some? then config.value else host.defaultConfig;
      && (r.isDetected ==> IsLandmarkSet(r.landmarks))
      && (!r.isDetected ==> r.landmarks == CastLandmarks(cfg.templateLandmarks))
      && (IsLandmarkSet(cfg.templateLandmarks) ==> IsLandmarkSet(r.landmarks))
      && r.boundingBox.None?
  {
    var cp := Collaborators(config, predictor, host).value;
    var d0 := Detect(host.preprocess(img), UpsampleLevels(cp.0.detectionMode), host.detector, cp.1).value;
    if d0.isDetected && d0.landmarksList != [] {
      assert IsLandmarkSet(d0.landmarksList[0]);
    }
  }

  /** The two consistency rules agree on whether a face counts as detected
      and differ only in the level: process_image clears it, landmarks_from_array
      keeps it. */
  lemma ConsistencyRulesCompared(d: DetectionValue)
    ensures ReconcileKeepingLevel(d).isDetected == Processor.Reconcile(d).isDetected
    ensures d.isDetected && d.landmarksList == [] && d.bestUpsample.Some? ==>
      ReconcileKeepingLevel(d).bestUpsample.Some? && Processor.Reconcile(d).bestUpsample.None?
  {
  }

  /** landmarks_from_array (inference.py), with its third value read as None. */
  method LandmarksFromArray(img: Image, config: Option<Config>, predictor: Option<Predictor>, host: Host)
    returns (r: Result<Inferred, Raised>)
    ensures r == ArrayInference(img, config, predictor, host)
  {
    var cfg := if config.Some? then config.value else host.defaultConfig;
    var pred;
    if predictor.Some? {
      pred := predictor.value;
    } else {
      var loaded := EnsurePredictor(cfg.learnedModelPath, host);
      if loaded.Failure? {
        return Failure(loaded.error);
      }
      pred := loaded.value;
    }
    var processed := host.preprocess(img);
    var detection := DetectLandmarks(processed, host.detector, pred, cfg);
    if detection.Failure? {
      return Failure(detection.error);
    }
    var result := detection.value;
    ghost var d0 := result.Snapshot();
    if result.isDetected && |result.landmarksList| == 0 {
      result.isDetected := false;
    }
    assert result.Snapshot() == ReconcileKeepingLevel(d0);
    var landmarks := if result.isDetected then result.landmarksList[0] else cfg.templateLandmarks;
    r := Success(Inferred(CastLandmarks(landmarks), result.isDetected, None));
  }

  // ---------------------------------------------------------------------------
  // landmarks_from_path

  /** Whether the path is first tried as a `.npy` array: its lower-cased form
      ends in `.npy`. */
  predicate TriesNpy(imgPath: string) {
    EndsWith(LowerAscii(imgPath), ".npy")
  }

  /** The load-fallback chain of landmarks_from_path: the `.npy` array if the
      path names one and it loads, otherwise the decoded image; a decoder that
      raises or yields None makes a RuntimeError naming the path. */
  function ReadImage(imgPath: string, readers: Readers): (r: Result<Image, Raised>)
    ensures TriesNpy(imgPath) && readers.npyLoad(imgPath).Success? ==> r == Success(readers.npyLoad(imgPath).value)
    ensures !(TriesNpy(imgPath) && readers.npyLoad(imgPath).Success?) ==>
      match readers.decode(imgPath)
      case Decoded(img) => r == Success(img)
      case DecodedNone => r == Failure(Raised(RuntimeError, LOAD_FAILED_PREFIX + imgPath))
      case DecodeRaised(e) => r == Failure(Raised(RuntimeError, LOAD_FAILED_PREFIX + imgPath + " - " + e))
  {
    var npy: Option<Image> :=
      if TriesNpy(imgPath) && readers.npyLoad(imgPath).Success? then Some(readers.npyLoad(imgPath).value) else None;
    if npy.Some? then Success(npy.value)
    else
      match readers.decode(imgPath)
      case Decoded(img) => Success(img)
      case DecodedNone => Failure(Raised(RuntimeError, LOAD_FAILED_PREFIX + imgPath))
      case DecodeRaised(e) => Failure(Raised(RuntimeError, LOAD_FAILED_PREFIX + imgPath + " - " + e))
  }

  /** landmarks_from_path, with the third value read as None. */
  function PathInference(imgPath: string, config: Option<Config>, predictor: Option<Predictor>, host: Host,
                         readers: Readers): (r: Result<Inferred, Raised>)
  {
    match Collaborators(config, predictor, host)
    case Failure(e) => Failure(e)
    case Success(cp) =>
      match ReadImage(imgPath, readers)
      case Failure(e) => Failure(e)
      case Success(img) => ArrayInference(img, Some(cp.0), Some(cp.1), host)
  }

  /** Reading fails exactly when no `.npy` array loads and the decoder yields
      no image, and then always with a RuntimeError whose message starts with
      the prefix and the path. */
  lemma ReadImageFailure(imgPath: string, readers: Readers)
    ensures ReadImage(imgPath, readers).Failure?
        <==> !(TriesNpy(imgPath) && readers.npyLoad(imgPath).Success?) && !readers.decode(imgPath).Decoded?
    ensures ReadImage(imgPath, readers).Failure? ==>
      ReadImage(imgPath, readers).error.kind == RuntimeError
      && StartsWith(ReadImage(imgPath, readers).error.message, LOAD_FAILED_PREFIX + imgPath)
  {
    var r := ReadImage(imgPath, readers);
    if r.Failure? {
      var p := LOAD_FAILED_PREFIX + imgPath;
      if readers.decode(imgPath).DecodeRaised? {
        var e := readers.decode(imgPath).message;
        assert r.error.message == p + (" - " + e);
        assert (p + (" - " + e))[..|p|] == p;
      } else {
        assert r.error.message == p;
      }
    }
  }

  /** The `.npy` test looks at the last four characters only, each compared
      after lower-casing. */
  lemma TriesNpyByLastFour(imgPath: string)
    ensures TriesNpy(imgPath) <==>
      |imgPath| >= 4
      && imgPath[|imgPath| - 4] == '.'
      && LowerChar(imgPath[|imgPath| - 3]) == 'n'
      && LowerChar(imgPath[|imgPath| - 2]) == 'p'
      && LowerChar(imgPath[|imgPath| - 1]) == 'y'
  {
    var n := |imgPath|;
    var lower := LowerAscii(imgPath);
    if n >= 4 {
      var tail := lower[n - 4..];
      assert tail[0] == lower[n - 4] && tail[1] == lower[n - 3] && tail[2] == lower[n - 2] && tail[3] == lower[n - 1];
      if tail[0] == '.' && tail[1] == 'n' && tail[2] == 'p' && tail[3] == 'y' {
        assert tail == ".npy";
      }
    }
  }

  /** The `.npy` test ignores ASCII case: an upper-case extension is tried as
      an array too, another extension is not. */
  lemma TriesNpyExamples()
    ensures TriesNpy("frame.NPY") && TriesNpy("a/b.Npy")
    ensures !TriesNpy("frame.png") && !TriesNpy("npy")
  {
    TriesNpyByLastFour("frame.NPY");
    TriesNpyByLastFour("a/b.Npy");
    TriesNpyByLastFour("frame.png");
    TriesNpyByLastFour("npy");
  }

  /** The predictor is settled before any file is read: when it has to be
      loaded and cannot be, the call fails with that error whatever the file. */
  lemma PredictorBeforeImage(imgPath: string, config: Option<Config>, host: Host, readers: Readers)
    requires Collaborators(config, None, host).Failure?
    ensures PathInference(imgPath, config, None, host, readers).Failure?
    ensures PathInference(imgPath, config, None, host, readers).error
         == EnsurePredictor((if config.Some? then config.value else host.defaultConfig).learnedModelPath, host).error
  {
  }

  /** Once an image is read, landmarks_from_path answers what
      landmarks_from_array answers for it, with the same configuration and
      predictor, and no second predictor load. */
  lemma PathDelegatesToArray(imgPath: string, config: Option<Config>, predictor: Option<Predictor>, host: Host,
                             readers: Readers)
    requires Collaborators(config, predictor, host).Success? && ReadImage(imgPath, readers).Success?
    ensures PathInference(imgPath, config, predictor, host, readers)
         == ArrayInference(ReadImage(imgPath, readers).value, config, Some(Collaborators(config, predictor, host).value.1), host)
  {
  }

  /** landmarks_from_path as written: it hands the image to the
      landmarks_from_array above, with the predictor already resolved. */
  function PathInferenceAsWritten(imgPath: string, config: Option<Config>, predictor: Option<Predictor>, host: Host,
                                  readers: Readers): (r: Result<Inferred, Raised>)
  {
    match Collaborators(config, predictor, host)
    case Failure(e) => Failure(e)
    case Success(cp) =>
      match ReadImage(imgPath, readers)
      case Failure(e) => Failure(e)
      case Success(img) => ArrayInferenceAsWritten(img, Some(cp.0), Some(cp.1), host)
  }

  /** The defect reaches landmarks_from_path too: as written it never returns,
      and every path the corrected version answers raises AttributeError. */
  lemma PathAsWrittenNeverReturns(imgPath: string, config: Option<Config>, predictor: Option<Predictor>, host: Host,
                                  readers: Readers)
    ensures PathInferenceAsWritten(imgPath, config, predictor, host, readers).Failure?
    ensures PathInference(imgPath, config, predictor, host, readers).Success? ==>
      PathInferenceAsWritten(imgPath, config, predictor, host, readers).error == Raised(AttributeError, NO_BOUNDING_BOX)
    ensures PathInference(imgPath, config, predictor, host, readers).Failure? ==>
      PathInferenceAsWritten(imgPath, config, predictor, host, readers) == PathInference(imgPath, config, predictor, host, readers)
  {
    var c := Collaborators(config, predictor, host);
    if c.Success? && ReadImage(imgPath, readers).Success? {
      AsWrittenNeverReturns(ReadImage(imgPath, readers).value, Some(c.value.0), Some(c.value.1), host);
    }
  }

  /** landmarks_from_path (inference.py). */
  method LandmarksFromPath(imgPath: string, config: Option<Config>, predictor: Option<Predictor>, host: Host,
                           readers: Readers) returns (r: Result<Inferred, Raised>)
    ensures r == PathInference(imgPath, config, predictor, host, readers)
  {
    var cfg := if config.Some? then config.value else host.defaultConfig;
    var pred;
    if predictor.Some? {
      pred := predictor.value;
    } else {
      var loaded := EnsurePredictor(cfg.learnedModelPath, host);
      if loaded.Failure? {
        return Failure(loaded.error);
      }
      pred := loaded.value;
    }

    var img: Option<Image> := None;
    if EndsWith(LowerAscii(imgPath), ".npy") {
      var loaded := readers.npyLoad(imgPath);
      img := if loaded.Success? then Some(loaded.value) else None;
    }
    if img.None? {
      match readers.decode(imgPath) {
        case Decoded(decoded) =>
          img := Some(decoded);
        case DecodedNone =>
        case DecodeRaised(e) =>
          return Failure(Raised(RuntimeError, LOAD_FAILED_PREFIX + imgPath + " - " + e));
      }
    }
    if img.None? {
      return Failure(Raised(RuntimeError, LOAD_FAILED_PREFIX + imgPath));
    }
    r := LandmarksFromArray(img.value, Some(cfg), Some(pred), host);
  }
}
