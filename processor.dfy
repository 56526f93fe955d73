/** The per-frame pipeline (processor.py): load, normalise, preprocess, detect,
    reconcile, pick the landmarks to save, save, and turn every exception into
    a failure ProcessResult. */
module Processor {
  import opened Wrappers
  import opened Text
  import opened DataModels
  import opened ImageUtils
  import opened LandmarkDetector

  const PROCESS_ERROR_PREFIX: string := "処理エラー: "
  const WRAPPER_ERROR_PREFIX: string := "ラッパーエラー: "
  const NOT_DETECTED_MESSAGE: string := "顔が検出できませんでした"

  /** The ProcessResult both exception handlers return. */
  function FailResult(message: string): (r: ProcessResult)
    ensures !r.isDetected && r.bestUpsample.None? && r.detectionInfo == [] && r.message == message
  {
    ProcessResult(false, message, None, [])
  }

  /** What surrounds one frame: how `np.load(img_path)` ends, the normalisation
      and preprocessing collaborators, the face detector, and which of the
      frame's file operations (if any) raises. */
  datatype FrameIO = FrameIO(
    load: Result<Image, string>,
    normalize: Image -> Image,
    preprocess: Image -> Image,
    detector: Detector,
    writeFault: Fault)

  /** The result a call returns together with what it did to the file system. */
  datatype Outcome = Outcome(result: ProcessResult, effects: seq<Effect>)

  /** The consistency rule of process_image: "detected" without landmarks is
      turned into "not detected" and the level is cleared. */
  function Reconcile(d: DetectionValue): (d': DetectionValue)
    ensures d'.isDetected <==> d.isDetected && d.landmarksList != []
    ensures d'.isDetected ==> d'.bestUpsample == d.bestUpsample
    ensures d.isDetected && !d'.isDetected ==> d'.bestUpsample.None?
    ensures !d.isDetected ==> d'.bestUpsample == d.bestUpsample
    ensures d'.landmarksList == d.landmarksList && d'.detectionInfo == d.detectionInfo
  {
    if d.isDetected && |d.landmarksList| == 0 then d.(isDetected := false, bestUpsample := None) else d
  }

  /** The landmarks saved for a reconciled detection: the first detected set,
      or the template. */
  function ChosenLandmarks(d: DetectionValue, config: Config): Landmarks
    requires d.isDetected ==> d.landmarksList != []
  {
    if d.isDetected then d.landmarksList[0] else config.templateLandmarks
  }

  /** The file operations of process_image after detection: the comparison
      directory, then the four artifacts. */
  function FrameEffects(imgPath: string, dirs: OutputDirs, origNorm: Image, processed: Image,
                        d: DetectionValue, config: Config): (steps: seq<Effect>)
    requires d.isDetected ==> d.landmarksList != []
    ensures |steps| == 5 && steps[0] == MakeDirs(ComparisonDir(dirs.orignorm))
  {
    var comparisonDir := ComparisonDir(dirs.orignorm);
    [MakeDirs(comparisonDir)]
      + SaveEffects(imgPath, origNorm, processed, ChosenLandmarks(d, config), dirs, comparisonDir, d.isDetected)
  }

  /** process_image, as a function of the frame's surroundings. */
  function ProcessSpec(imgPath: string, dirs: OutputDirs, predictor: Predictor, config: Config, io: FrameIO)
    : (o: Outcome)
    ensures |o.effects| <= 5
  {
    match io.load
    case Failure(e) => Outcome(FailResult(PROCESS_ERROR_PREFIX + e), [])
    case Success(img) =>
      var processed := io.preprocess(img);
      match Detect(processed, UpsampleLevels(config.detectionMode), io.detector, predictor)
      case Failure(e) => Outcome(FailResult(PROCESS_ERROR_PREFIX + e.message), [])
      case Success(d0) => AfterDetection(imgPath, dirs, config, io.normalize(img), processed, d0, io.writeFault)
  }

  /** The rest of process_image once detection has completed with d0. */
  function AfterDetection(imgPath: string, dirs: OutputDirs, config: Config, origNorm: Image, processed: Image,
                          d0: DetectionValue, writeFault: Fault): (o: Outcome)
    ensures |o.effects| <= 5
  {
    var d := Reconcile(d0);
    var steps := FrameEffects(imgPath, dirs, origNorm, processed, d, config);
    var done := Performed(steps, writeFault);
    if |done| < |steps| then Outcome(FailResult(PROCESS_ERROR_PREFIX + writeFault.message), done)
    else
      var message := if d.isDetected then "" else NOT_DETECTED_MESSAGE;
      Outcome(ProcessResult(d.isDetected, message, d.bestUpsample, d.detectionInfo), done)
  }

  /** process_image (processor.py). */
  method ProcessImage(imgPath: string, orignormDir: string, processedDir: string, landmarksDir: string,
                      predictor: Predictor, config: Config, io: FrameIO)
    returns (r: ProcessResult, effects: seq<Effect>)
    ensures Outcome(r, effects) == ProcessSpec(imgPath, OutputDirs(orignormDir, processedDir, landmarksDir), predictor, config, io)
  {
    var dirs := OutputDirs(orignormDir, processedDir, landmarksDir);
    if io.load.Failure? {
      return FailResult(PROCESS_ERROR_PREFIX + io.load.error), [];
    }
    var originalImg := io.load.value;
    var origNorm := io.normalize(originalImg);
    var processed := io.preprocess(originalImg);
    var detection := DetectLandmarks(processed, io.detector, predictor, config);
    if detection.Failure? {
      return FailResult(PROCESS_ERROR_PREFIX + detection.error.message), [];
    }
    var detectionResult := detection.value;
    ghost var d0 := detectionResult.Snapshot();
    if detectionResult.isDetected && |detectionResult.landmarksList| == 0 {
      detectionResult.isDetected := false;
      detectionResult.bestUpsample := None;
    }
    ghost var d := detectionResult.Snapshot();
    assert d == Reconcile(d0);

    var comparisonDir := ComparisonDir(orignormDir);
    var landmarks, message;
    if detectionResult.isDetected {
      landmarks := detectionResult.landmarksList[0];
      message := "";
    } else {
      landmarks := config.templateLandmarks;
      message := NOT_DETECTED_MESSAGE;
    }
    var steps := [MakeDirs(comparisonDir)]
      + SaveEffects(imgPath, origNorm, processed, landmarks, dirs, comparisonDir, detectionResult.isDetected);
    assert steps == FrameEffects(imgPath, dirs, origNorm, processed, d, config);
    effects := Performed(steps, io.writeFault);
    if |effects| < |steps| {
      return FailResult(PROCESS_ERROR_PREFIX + io.writeFault.message), effects;
    }
    r := ProcessResult(detectionResult.isDetected, message, detectionResult.bestUpsample,
                       InfoView(detectionResult.detectionInfo));
  }

  /** process_image_wrapper, with `dlib.shape_predictor(path)` as `shapePredictor`. */
  function WrapperSpec(job: Job, shapePredictor: string -> Result<Predictor, string>, io: FrameIO): (o: Outcome)
    ensures shapePredictor(job.config.learnedModelPath).Failure? ==> o.effects == []
  {
    match shapePredictor(job.config.learnedModelPath)
    case Failure(e) => Outcome(FailResult(WRAPPER_ERROR_PREFIX + e), [])
    case Success(predictor) =>
      ProcessSpec(job.imgFile, OutputDirs(job.orignormDir, job.processedDir, job.landmarksDir), predictor, job.config, io)
  }

  /** process_image_wrapper (processor.py). */
  method ProcessImageWrapper(job: Job, shapePredictor: string -> Result<Predictor, string>, io: FrameIO)
    returns (r: ProcessResult, effects: seq<Effect>)
    ensures Outcome(r, effects) == WrapperSpec(job, shapePredictor, io)
  {
    var loaded := shapePredictor(job.config.learnedModelPath);
    if loaded.Failure? {
      return FailResult(WRAPPER_ERROR_PREFIX + loaded.error), [];
    }
    r, effects := ProcessImage(job.imgFile, job.orignormDir, job.processedDir, job.landmarksDir,
                               loaded.value, job.config, io);
  }

  // ---------------------------------------------------------------------------
  // What process_image promises

  /** The three fields of every result agree: a frame is detected exactly when
      it has a level, and exactly when its message is empty. */
  predicate Consistent(r: ProcessResult) {
    && (r.isDetected <==> r.bestUpsample.Some?)
    && (r.isDetected <==> r.message == [])
  }

  lemma ProcessResultConsistent(imgPath: string, dirs: OutputDirs, predictor: Predictor, config: Config, io: FrameIO)
    ensures Consistent(ProcessSpec(imgPath, dirs, predictor, config, io).result)
  {
  }

  /** A frame counts as detected exactly when it loads, detection completes with
      a candidate and a landmark set, and none of its file operations raises. */
  lemma DetectedIffLandmarksSaved(imgPath: string, dirs: OutputDirs, predictor: Predictor, config: Config, io: FrameIO)
    ensures ProcessSpec(imgPath, dirs, predictor, config, io).result.isDetected <==>
      && io.load.Success?
      && var d := Detect(io.preprocess(io.load.value), UpsampleLevels(config.detectionMode), io.detector, predictor);
      && d.Success? && d.value.isDetected && d.value.landmarksList != []
      && !(io.writeFault.FaultAt? && io.writeFault.step < 5)
  {
  }

  /** An exception while loading or detecting yields the failure shape and
      touches no file. */
  lemma EarlyFailureShape(imgPath: string, dirs: OutputDirs, predictor: Predictor, config: Config, io: FrameIO)
    requires io.load.Failure? ||
      Detect(io.preprocess(io.load.value), UpsampleLevels(config.detectionMode), io.detector, predictor).Failure?
    ensures var o := ProcessSpec(imgPath, dirs, predictor, config, io);
      && o.effects == []
      && o.result == FailResult(PROCESS_ERROR_PREFIX + (if io.load.Failure? then io.load.error
           else Detect(io.preprocess(io.load.value), UpsampleLevels(config.detectionMode), io.detector, predictor).error.message))
  {
  }

  /** The frame's writes carry the chosen landmarks, under a name failure-marked
      exactly when the frame is not detected. */
  lemma FrameEffectsCarryChoice(imgPath: string, dirs: OutputDirs, origNorm: Image, processed: Image,
                                d: DetectionValue, config: Config)
    requires d.isDetected ==> d.landmarksList != []
    ensures var steps := FrameEffects(imgPath, dirs, origNorm, processed, d, config);
      var comparisonDir := ComparisonDir(dirs.orignorm);
      && steps[0] == MakeDirs(comparisonDir)
      && steps[1] == SaveImage(ArtifactPath(dirs.orignorm, imgPath, "orignorm", d.isDetected, ".npy"), origNorm)
      && steps[2] == SaveImage(ArtifactPath(dirs.processed, imgPath, "processed", d.isDetected, ".npy"), processed)
      && steps[3] == SaveLandmarks(ArtifactPath(dirs.landmarks, imgPath, "landmarks", d.isDetected, ".npy"),
                                   ChosenLandmarks(d, config))
      && (EndsWith(steps[3].path, "_ng.npy") <==> !d.isDetected)
      && steps[4] == RenderComparison(ArtifactPath(comparisonDir, imgPath, "comparison", d.isDetected, ".png"),
                                      ChosenLandmarks(d, config))
  {
    var comparisonDir := ComparisonDir(dirs.orignorm);
    var saves := SaveEffects(imgPath, origNorm, processed, ChosenLandmarks(d, config), dirs, comparisonDir, d.isDetected);
    var steps := FrameEffects(imgPath, dirs, origNorm, processed, d, config);
    assert steps[1..] == saves;
    ArtifactMarksFailure(dirs.landmarks, imgPath, "landmarks", d.isDetected);
  }

  /** With a completed detection, the landmarks written (and drawn) are the
      first detected set when the reconciled frame is detected and the
      template otherwise, under a name failure-marked exactly when it is not
      detected. */
  lemma SavedLandmarksFollowDetection(imgPath: string, dirs: OutputDirs, config: Config, origNorm: Image,
                                      processed: Image, d0: DetectionValue, writeFault: Fault)
    ensures var o := AfterDetection(imgPath, dirs, config, origNorm, processed, d0, writeFault);
      var d := Reconcile(d0);
      var chosen := if d.isDetected then d0.landmarksList[0] else config.templateLandmarks;
      && (forall k :: 0 <= k < |o.effects| && o.effects[k].SaveLandmarks? ==>
            o.effects[k].landmarks == chosen && (EndsWith(o.effects[k].path, "_ng.npy") <==> !d.isDetected))
      && (forall k :: 0 <= k < |o.effects| && o.effects[k].RenderComparison? ==> o.effects[k].landmarks == chosen)
  {
    var o := AfterDetection(imgPath, dirs, config, origNorm, processed, d0, writeFault);
    var d := Reconcile(d0);
    var steps := FrameEffects(imgPath, dirs, origNorm, processed, d, config);
    var chosen := if d.isDetected then d0.landmarksList[0] else config.templateLandmarks;
    assert ChosenLandmarks(d, config) == chosen;
    FrameEffectsCarryChoice(imgPath, dirs, origNorm, processed, d, config);
    AfterDetectionEffects(imgPath, dirs, config, origNorm, processed, d0, writeFault);
    PrefixOfFrameEffects(o.effects, steps);
    forall k | 0 <= k < |o.effects| && o.effects[k].SaveLandmarks?
      ensures o.effects[k].landmarks == chosen && (EndsWith(o.effects[k].path, "_ng.npy") <==> !d.isDetected)
    {
      assert o.effects[k] == steps[3];
    }
    forall k | 0 <= k < |o.effects| && o.effects[k].RenderComparison?
      ensures o.effects[k].landmarks == chosen
    {
      assert o.effects[k] == steps[4];
    }
  }

  lemma AfterDetectionEffects(imgPath: string, dirs: OutputDirs, config: Config, origNorm: Image,
                              processed: Image, d0: DetectionValue, writeFault: Fault)
    ensures AfterDetection(imgPath, dirs, config, origNorm, processed, d0, writeFault).effects
         == Performed(FrameEffects(imgPath, dirs, origNorm, processed, Reconcile(d0), config), writeFault)
  {
  }

  /** In a prefix of a frame's operations, only index 3 saves landmarks and only
      index 4 renders. */
  lemma PrefixOfFrameEffects(done: seq<Effect>, steps: seq<Effect>)
    requires done <= steps && |steps| == 5
    requires steps[0].MakeDirs? && steps[1].SaveImage? && steps[2].SaveImage?
    requires steps[3].SaveLandmarks? && steps[4].RenderComparison?
    ensures forall k :: 0 <= k < |done| && done[k].SaveLandmarks? ==> done[k] == steps[3]
    ensures forall k :: 0 <= k < |done| && done[k].RenderComparison? ==> done[k] == steps[4]
  {
    forall k | 0 <= k < |done| ensures done[k] == steps[k] { }
  }

  /** Without a write fault, all five file operations happen and the result
      copies the reconciled detection, with the message that matches it. */
  lemma ResultCopiesDetection(imgPath: string, dirs: OutputDirs, config: Config, origNorm: Image,
                              processed: Image, d0: DetectionValue, writeFault: Fault)
    requires !(writeFault.FaultAt? && writeFault.step < 5)
    ensures var o := AfterDetection(imgPath, dirs, config, origNorm, processed, d0, writeFault);
      var d := Reconcile(d0);
      && |o.effects| == 5
      && o.result == ProcessResult(d.isDetected, if d.isDetected then "" else NOT_DETECTED_MESSAGE,
                                   d.bestUpsample, d0.detectionInfo)
  {
  }

  /** A write fault at any of the five operations yields the failure shape,
      after the operations that precede it. */
  lemma WriteFaultShape(imgPath: string, dirs: OutputDirs, config: Config, origNorm: Image,
                        processed: Image, d0: DetectionValue, writeFault: Fault)
    requires writeFault.FaultAt? && writeFault.step < 5
    ensures var o := AfterDetection(imgPath, dirs, config, origNorm, processed, d0, writeFault);
      && |o.effects| == writeFault.step
      && o.result == FailResult(PROCESS_ERROR_PREFIX + writeFault.message)
  {
  }

  /** A candidate whose prediction raised reaches the caller as a frame that is
      not detected, has no level and carries the not-detected message. */
  lemma PredictorFailureDowngrades(imgPath: string, dirs: OutputDirs, predictor: Predictor, config: Config,
                                   io: FrameIO, d0: DetectionValue)
    requires io.load.Success?
    requires Detect(io.preprocess(io.load.value), UpsampleLevels(config.detectionMode), io.detector, predictor) == Success(d0)
    requires d0.isDetected && d0.landmarksList == []
    requires io.writeFault == NoFault
    ensures ProcessSpec(imgPath, dirs, predictor, config, io).result
         == ProcessResult(false, NOT_DETECTED_MESSAGE, None, d0.detectionInfo)
  {
  }

  /** process_image_wrapper keeps the same shape: a predictor that fails to load
      gives the failure result with its own prefix, and otherwise the result of
      process_image; either way the fields agree. */
  lemma WrapperResultConsistent(job: Job, shapePredictor: string -> Result<Predictor, string>, io: FrameIO)
    ensures Consistent(WrapperSpec(job, shapePredictor, io).result)
    ensures shapePredictor(job.config.learnedModelPath).Failure? ==>
      WrapperSpec(job, shapePredictor, io).result
        == FailResult(WRAPPER_ERROR_PREFIX + shapePredictor(job.config.learnedModelPath).error)
  {
    if shapePredictor(job.config.learnedModelPath).Success? {
      ProcessResultConsistent(job.imgFile, OutputDirs(job.orignormDir, job.processedDir, job.landmarksDir),
                              shapePredictor(job.config.learnedModelPath).value, job.config, io);
    }
  }
}
