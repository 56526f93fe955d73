/** Records shared by the detector, the per-frame processor and the batch
    orchestrator (data_models.py, constants.py), the exceptions they can raise,
    and the file-system effects the pipeline performs. */
module DataModels {
  import opened Wrappers

  /** Constants.NUM_LANDMARKS */
  const NUM_LANDMARKS: nat := 68

  /** One row of a landmark array: `[x, y]`. */
  datatype Point = Point(x: int, y: int)

  /** A landmark array of shape (n, 2). */
  type Landmarks = seq<Point>

  /** A face region returned by the detector. */
  datatype Rect = Rect(left: int, top: int, right: int, bottom: int)

  /** A pixel buffer; its contents are only ever handed to collaborators. */
  type Image = seq<seq<int>>

  // ---------------------------------------------------------------------------
  // numpy int32

  predicate IsInt32(v: int) {
    -0x8000_0000 <= v < 0x8000_0000
  }

  /** `.astype(np.int32)` of one value: two's-complement wrap-around. */
  function ToInt32(v: int): (r: int)
    ensures IsInt32(r)
    ensures (v - r) % 0x1_0000_0000 == 0
    ensures IsInt32(v) ==> r == v
  {
    (v + 0x8000_0000) % 0x1_0000_0000 - 0x8000_0000
  }

  predicate Int32Points(lm: Landmarks) {
    forall k :: 0 <= k < |lm| ==> IsInt32(lm[k].x) && IsInt32(lm[k].y)
  }

  /** `landmarks.astype(np.int32)` */
  function CastLandmarks(lm: Landmarks): (r: Landmarks)
    ensures |r| == |lm| && Int32Points(r)
    ensures Int32Points(lm) ==> r == lm
  {
    seq(|lm|, k requires 0 <= k < |lm| => Point(ToInt32(lm[k].x), ToInt32(lm[k].y)))
  }

  /** A (68, 2) int32 landmark array. */
  predicate IsLandmarkSet(lm: Landmarks) {
    |lm| == NUM_LANDMARKS && Int32Points(lm)
  }

  // ---------------------------------------------------------------------------
  // DetectionInfo, DetectionResult, ProcessResult

  /** The value of a DetectionInfo record at one moment. */
  datatype Info = Info(upsample: int, reason: string)

  /** data_models.DetectionInfo: a mutable record; the detector rewrites the
      reason of a record it has already appended. */
  class DetectionInfo {
    var upsample: int
    var reason: string

    constructor (upsample: int, reason: string)
      ensures this.upsample == upsample && this.reason == reason
    {
      this.upsample := upsample;
      this.reason := reason;
    }
  }

  /** What a list of DetectionInfo records reads as; one object listed twice
      shows the same value twice. */
  function InfoView(infos: seq<DetectionInfo>): (r: seq<Info>)
    reads infos
    ensures |r| == |infos|
  {
    seq(|infos|, k requires 0 <= k < |infos| reads infos => Info(infos[k].upsample, infos[k].reason))
  }

  /** The value of a DetectionResult at one moment. */
  datatype DetectionValue = DetectionValue(
    landmarksList: seq<Landmarks>,
    bestUpsample: Option<int>,
    detectionInfo: seq<Info>,
    isDetected: bool)

  /** data_models.DetectionResult: its callers overwrite is_detected and
      best_upsample in place. */
  class DetectionResult {
    var landmarksList: seq<Landmarks>
    var bestUpsample: Option<int>
    var detectionInfo: seq<DetectionInfo>
    var isDetected: bool

    constructor (landmarksList: seq<Landmarks>, bestUpsample: Option<int>,
                 detectionInfo: seq<DetectionInfo>, isDetected: bool)
      ensures this.landmarksList == landmarksList && this.bestUpsample == bestUpsample
      ensures this.detectionInfo == detectionInfo && this.isDetected == isDetected
    {
      this.landmarksList := landmarksList;
      this.bestUpsample := bestUpsample;
      this.detectionInfo := detectionInfo;
      this.isDetected := isDetected;
    }

    function Snapshot(): DetectionValue
      reads this, detectionInfo
    {
      DetectionValue(landmarksList, bestUpsample, InfoView(detectionInfo), isDetected)
    }
  }

  /** data_models.ProcessResult, as it comes back from a worker process. */
  datatype ProcessResult = ProcessResult(
    isDetected: bool,
    message: string,
    bestUpsample: Option<int>,
    detectionInfo: seq<Info>)

  // ---------------------------------------------------------------------------
  // exceptions, configuration, effects

  datatype ErrorKind = UnboundLocalError | FileNotFoundError | RuntimeError | AttributeError | OtherError

  /** A Python exception: its class and `str(e)`. */
  datatype Raised = Raised(kind: ErrorKind, message: string)

  /** The Config attributes the core reads. */
  datatype Config = Config(
    detectionMode: string,
    templateLandmarks: Landmarks,
    outputBaseDir: string,
    learnedModelPath: string)

  /** The argument tuple handed to a worker. */
  datatype Job = Job(imgFile: string, orignormDir: string, processedDir: string,
                     landmarksDir: string, config: Config)

  /** What the pipeline does to the outside world, in order. */
  datatype Effect =
    | MakeDirs(path: string)                              // os.makedirs(path, exist_ok=True)
    | SaveImage(path: string, image: Image)               // np.save of a pixel buffer
    | SaveLandmarks(path: string, landmarks: Landmarks)   // np.save of a landmark array
    | LoadArray(path: string)                             // np.load(path)
    | RenderComparison(path: string, landmarks: Landmarks) // visualize_comparison(..., [landmarks], path)
    | WriteText(path: string, text: string)               // open(path, 'w').write(...)
    | Report(text: string)                                // print to the console
    | StartPool(maxWorkers: nat)                          // ProcessPoolExecutor(max_workers)
    | Submit(job: Job)                                    // executor.submit(process_image_wrapper, job)

  /** Where, in a sequence of file operations, an exception is raised. */
  datatype Fault = NoFault | FaultAt(step: nat, message: string)

  /** The operations of `steps` that take place when `fault` strikes: all of
      them, or those before the failing one. */
  function Performed(steps: seq<Effect>, fault: Fault): (done: seq<Effect>)
    ensures done <= steps
    ensures |done| < |steps| <==> fault.FaultAt? && fault.step < |steps|
  {
    if fault.FaultAt? && fault.step < |steps| then steps[..fault.step] else steps
  }
}
