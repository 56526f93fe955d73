# NIR landmark detection — a Dafny model of the detection pipeline

This project models the part of the NIR landmark detection tool that decides
whether a face was found in a near-infrared frame, which 68 facial landmarks
are kept, and what is written to disk. The model covers:

- `detect_landmarks`: the upsample escalation loop over the dlib detector,
  the per-level `DetectionInfo` trail and point prediction.
- `process_image` and `process_image_wrapper`: the per-frame pipeline with
  its consistency rule, the `_ng` naming of failed frames and its two
  exception handlers.
- `process_directory`: the batch run, including the pool size, the
  completion-order consumer loop with its "last successful landmarks"
  substitute, and the two text ledgers.
- `setup_directories` and the naming logic of `save_processed_files`.
- The single-image entry points of `inference.py`: `_ensure_predictor`,
  `landmarks_from_array` and `landmarks_from_path`.

Outside collaborators are parameters of the model. These are the dlib
detector and predictor, `np.load`, normalisation, preprocessing, the image
decoder, whether a path exists, the host core count, and the order in which
futures complete. A file-system failure is a `Fault` that names the
operation that raises. What the pipeline does to the outside world is
returned as an ordered list of `Effect`s.

A record of the source is a Dafny class when it is changed after another
part of the program already holds it. `DetectionInfo` is one, because the
detector rewrites a record it has already appended. `DetectionResult` is
another, because its callers overwrite `is_detected` and `best_upsample` on
the object detect_landmarks returned. `Config` and `ProcessResult` are values
(datatypes): process_directory sets `DETECTION_MODE` on a `Config()` it has
just built and has not yet handed out (directory_processor.py:25-26), which
the model writes as a value update, and a `ProcessResult` is never changed
after it is built. The source's imperative code is modelled by methods:
the escalation loop, the prediction loop, the consumer loop and the ledger
writers. Each method is proved equal to a pure specification function, and
the properties are proved as lemmas about those functions.

Files:

| file | module | models |
|---|---|---|
| `wrappers.dfy` | `Wrappers` | `Option`, `Result` |
| `text.dfy` | `Text` | `str.endswith`, `str.lower`, `.replace('.npy', '')`, integer formatting, line counting |
| `paths.dfy` | `Paths` | `os.path.basename`, `os.path.dirname`, `os.path.join` (POSIX) |
| `data_models.dfy` | `DataModels` | `data_models.py`, `Constants.NUM_LANDMARKS`, int32 casts, exceptions, effects |
| `landmark_detector.dfy` | `LandmarkDetector` | `landmark_detector.py` |
| `image_utils.dfy` | `ImageUtils` | `setup_directories` and the artifact names of `save_processed_files` |
| `processor.dfy` | `Processor` | `processor.py` |
| `directory_processor.dfy` | `DirectoryProcessor` | `directory_processor.py` |
| `inference.dfy` | `Inference` | `inference.py` |

## Model

| member | source | states |
|---|---|---|
| Text.DropNpyKeepsClean | image_utils.py:110 | a name that contains no ".npy" is returned unchanged by the removal of ".npy" |
| Text.DropNpyAcrossSeparator | image_utils.py:110 | every occurrence of ".npy" is removed, not only a trailing extension: `b + ".npy" + c` becomes the cleaned `b` followed by the cleaned `c` |
| Text.DropNpyKeepsOut | image_utils.py:110 | removing ".npy" adds no character, so a name without '/' keeps none |
| Text.NatToStringRoundTrip | directory_processor.py:125 | the decimal text of a level parses back to that level |
| Text.IntToStringRoundTrip | directory_processor.py:125 | the text an integer level is written as (with a sign when negative) is well formed and parses back to that integer |
| Paths.Basename | image_utils.py:19 | `os.path.basename` holds no '/', is a suffix of the path and follows its last '/' |
| Paths.Join | image_utils.py:20 | `os.path.join(a, b)` ends with `b` |
| Paths.BasenameOfJoin | image_utils.py:110 | the basename of `join(dir, leaf)` is `leaf` for a leaf without '/' |
| Paths.DirnameOfJoin | processor.py:63 | the dirname of `join(dir, leaf)` is `dir` for a directory without a trailing '/' |
| DataModels.ToInt32 | landmark_detector.py:78 | `astype(np.int32)` yields an int32 value congruent to the input modulo 2^32, and the input itself when it is already in range |
| DataModels.CastLandmarks | inference.py:60 | the int32 cast keeps the number of points, makes every coordinate int32, and changes nothing when the coordinates are already in range |
| DataModels.Performed | processor.py:75-85 | the operations that happen before an exception are a prefix of the planned ones, and a strict prefix exactly when a fault strikes within them |
| DataModels.DetectionInfo.constructor | data_models.py:8-12 | a new record holds the level and reason it is given |
| DataModels.DetectionResult.constructor | data_models.py:15-21 | a new result holds the four fields it is given |
| LandmarkDetector.ErrorReason | landmark_detector.py:59 | the reason recorded for a detector exception is the error prefix followed by the exception text |
| LandmarkDetector.UpsampleLevels | landmark_detector.py:38-41 | mode "high" tries levels 0..4 and every other mode tries 0..3, in ascending order |
| LandmarkDetector.Step | landmark_detector.py:44-61 | one iteration appends exactly one record, and it escapes only when the detector raises before any record exists |
| LandmarkDetector.Run | landmark_detector.py:43-65 | after n levels the loop has appended at most n records |
| LandmarkDetector.PredictLandmarks | landmark_detector.py:74-78 | a predictor call gives a landmark set exactly when it returns a shape with at least 68 parts; point k of the set is part k of the shape cast to int32, so parts already in the int32 range are kept as they are |
| LandmarkDetector.PredictAllKeepsSuccesses | landmark_detector.py:71-85 | the kept landmark sets are, in region order, exactly the predictions of the regions whose prediction does not raise |
| LandmarkDetector.PredictOne | landmark_detector.py:72-85 | for a single region the list holds its landmarks, or is empty when the prediction raises |
| LandmarkDetector.Detect | landmark_detector.py:32-95 | at most one record per level and at most one landmark set, which is a 68-point int32 array; detected exactly when a level is reported; no landmarks when not detected |
| LandmarkDetector.StepOnRaise | landmark_detector.py:58-61 | a detector exception at a later level does not stop the loop; the previous record is re-appended and shows the new error, and what the trail records about earlier levels still holds |
| LandmarkDetector.StepOnFaces | landmark_detector.py:45-56 | a level answering without raising appends a record for that level, locks it in when it is the first with a candidate, and keeps what the trail records about earlier levels |
| LandmarkDetector.RunFacts | landmark_detector.py:43-65 | after n levels the trail and the locked level agree with the detector's answers record by record |
| LandmarkDetector.RunSettles | landmark_detector.py:63-65 | once a level is locked in or the loop has escaped, later levels change nothing |
| LandmarkDetector.RunEscapes | landmark_detector.py:44-59 | the loop escapes exactly when the detector raises at the first level, and then with UnboundLocalError for `current_info` |
| LandmarkDetector.RunReadsPrefix | landmark_detector.py:43-65 | the loop's state after n levels depends only on the first n answers |
| LandmarkDetector.DetectEscapesOnlyAtFirstLevel | landmark_detector.py:43-61 | detect_landmarks raises exactly when the detector raises at the first level, and then with UnboundLocalError |
| LandmarkDetector.DetectedIffSomeLevelHasFace | landmark_detector.py:51-68 | a face is detected exactly when some level yields a candidate |
| LandmarkDetector.DetectLocksFirstFace | landmark_detector.py:51-85 | the first level with a candidate is reported; the trail ends there with a success record; the landmarks are that level's first candidate's prediction, and the list is empty exactly when that prediction raises |
| LandmarkDetector.DetectIgnoresLaterLevels | landmark_detector.py:63-65 | levels after the first one with a candidate are never evaluated |
| LandmarkDetector.DetectWithoutFace | landmark_detector.py:68-88 | with no candidate at any level there is one record per level, no detection, no level and no landmarks |
| LandmarkDetector.DetectAllLevelsEmpty | landmark_detector.py:43-65 | when every level answers "no face", the result is exactly one "no face" record per level, in order |
| LandmarkDetector.DetectTrailRecords | landmark_detector.py:46-61 | every record of the returned trail reads as the detector's answer at its level (or at the later level that rewrote it) dictates |
| LandmarkDetector.TryLevel | landmark_detector.py:44-65 | one pass of the loop on DetectionInfo objects agrees with Step, including the aliasing of re-appended records |
| LandmarkDetector.PredictEach | landmark_detector.py:71-85 | the prediction loop builds the list PredictAll specifies |
| LandmarkDetector.DetectLandmarks | landmark_detector.py:15-95 | detect_landmarks returns a fresh DetectionResult whose state is Detect for the mode's levels, or raises what Detect raises |
| ImageUtils.Suffix | image_utils.py:109 | the suffix is empty exactly for a detected frame, and "_ng" otherwise |
| ImageUtils.BaseName | image_utils.py:110 | the frame name has no '/' and is no longer than the file's basename |
| ImageUtils.BaseNameOfNpyFile | image_utils.py:110 | the frame name of `dir/b.npy` is `b` |
| ImageUtils.BaseNameDropsEveryNpy | image_utils.py:110 | every ".npy" in the file name is dropped, not only the extension |
| ImageUtils.SetupCreatesSiblings | image_utils.py:19-25 | setup_directories creates exactly the orignorm, processed and landmarks directories, in that order, all directly in `join(output_base, basename(input_dir))` |
| ImageUtils.SetupDirectoriesAreSiblings | image_utils.py:19-22 | the three directories sit directly in `join(output_base, basename(input_dir))` under the names orignorm, processed and landmarks |
| ImageUtils.NamedDirectory | image_utils.py:20-22 | each output directory has its parent as dirname and its fixed name as basename |
| ImageUtils.SetupDirectoriesTrailingSlash | image_utils.py:19-22 | an input directory with a trailing '/' has an empty basename, so the directories land directly under the output base |
| ImageUtils.JoinThroughEmpty | image_utils.py:20-22 | joining through an empty directory name is the same as joining directly |
| ImageUtils.ComparisonDir | processor.py:63 | the comparison directory is named "comparisons" |
| ImageUtils.ComparisonDirIsSibling | processor.py:63 | the comparison directory is a fourth sibling of the three output directories |
| ImageUtils.SavedWhereNamed | image_utils.py:109-131 | each of the four saves lands directly in its own directory under `{base}_{kind}{suffix}{ext}`, carrying the data it was given |
| ImageUtils.NgNameIffFailure | image_utils.py:109-124 | a name built with a kind and the frame's suffix ends in "_ng.npy" exactly when the frame was not detected |
| ImageUtils.ArtifactLayout | image_utils.py:113-130 | each artifact sits directly in its directory under the name `{base}_{kind}{suffix}{ext}` |
| ImageUtils.ArtifactMarksFailure | image_utils.py:109-124 | an array artifact's path ends in "_ng.npy" exactly when the frame was not detected |
| Processor.Reconcile | processor.py:57-60 | "detected" without landmarks becomes "not detected" with the level cleared; everything else is kept |
| Processor.FrameEffects | processor.py:62-85 | after detection, the comparison directory is created first, then the four artifacts are saved |
| Processor.ProcessSpec | processor.py:40-105 | a frame performs at most five file operations |
| Processor.AfterDetection | processor.py:57-92 | the part of process_image after detection performs at most five file operations |
| Processor.ProcessImage | processor.py:17-105 | process_image's result and file operations are those ProcessSpec gives |
| Processor.WrapperSpec | processor.py:108-134 | a predictor that fails to load means no file operation |
| Processor.ProcessImageWrapper | processor.py:108-134 | process_image_wrapper's result and file operations are those WrapperSpec gives |
| Processor.ProcessResultConsistent | processor.py:87-105 | every result of process_image is detected exactly when it has a level, and exactly when its message is empty |
| Processor.DetectedIffLandmarksSaved | processor.py:57-85 | a frame counts as detected exactly when it loads, detection completes with landmarks and all five file operations succeed |
| Processor.EarlyFailureShape | processor.py:94-105 | a load or detection exception gives the failure shape with the "処理エラー: " message and no file operation |
| Processor.FrameEffectsCarryChoice | processor.py:66-85 | a frame that loads makes the comparison directory, then saves the two images and the chosen landmarks (the first detected set, or the template) at their artifact paths, marked "_ng" exactly for a failed frame, and draws the comparison with the same landmarks |
| Processor.SavedLandmarksFollowDetection | processor.py:66-85 | with a completed detection, the landmarks written and drawn are the first detected set when detected and the template otherwise |
| Processor.AfterDetectionEffects | processor.py:62-85 | the operations performed are the prefix of the frame's five operations that precedes the write fault |
| Processor.PrefixOfFrameEffects | processor.py:75-85 | within any prefix of a frame's operations, only the fourth saves landmarks and only the fifth renders the comparison |
| Processor.ResultCopiesDetection | processor.py:87-92 | without a write fault the result copies the reconciled detection, with an empty message exactly when detected |
| Processor.WriteFaultShape | processor.py:94-105 | a write fault at any of the five operations gives the failure shape with the fault's message |
| Processor.PredictorFailureDowngrades | processor.py:57-60 | a candidate whose prediction raised reaches the caller as not detected, with no level |
| Processor.WrapperResultConsistent | processor.py:117-134 | process_image_wrapper's result also obeys the consistency rule, and a predictor that fails to load gives the "ラッパーエラー: " failure shape |
| DirectoryProcessor.WorkerCount | directory_processor.py:45-48 | the pool has all cores but two, and at least one worker |
| DirectoryProcessor.WorkerCountExamples | directory_processor.py:45-48 | 8 cores give 6 workers; 3, 2 or 1 cores give 1 |
| DirectoryProcessor.SubstituteEffects | directory_processor.py:84-102 | the substitute for a failed frame takes four file operations |
| DirectoryProcessor.Consume | directory_processor.py:62-116 | each completion adds one row for its own frame; the ledgers and operations only grow; the last good landmarks change exactly for a contributing frame; a row succeeds exactly when no not-detected entry is added; with a consistent worker result, a row has a level exactly when it succeeds |
| DirectoryProcessor.ConsumeAll | directory_processor.py:62-116 | the loop adds one row per completion |
| DirectoryProcessor.ResultLedgerGrows | directory_processor.py:120-128 | appending a row to the ledger appends its two writes |
| DirectoryProcessor.WriteResultLedger | directory_processor.py:119-128 | the writing loop produces exactly the result ledger text |
| DirectoryProcessor.WriteRow | directory_processor.py:123-128 | one row is the file name with its level or "検出失敗", then the verdict and the line break |
| DirectoryProcessor.WriteNotDetectedLedger | directory_processor.py:131-135 | the writing loop produces exactly the not-detected ledger text |
| DirectoryProcessor.Closing | directory_processor.py:118-138 | after the loop, the result ledger is written first; then either the not-detected ledger and its message, or only the all-detected message |
| DirectoryProcessor.DirectorySpec | directory_processor.py:18-145 | for a completion order that hands back each submitted file exactly once, process_directory's operations; without input files a single one |
| DirectoryProcessor.ConsumeCompletion | directory_processor.py:62-116 | the loop body, as statements, computes Consume |
| DirectoryProcessor.ConsumeLoop | directory_processor.py:62-116 | the consumer loop ends in ConsumeAll of the completions, in completion order |
| DirectoryProcessor.ConsumeAllStep | directory_processor.py:62-116 | consuming one more completion is one more Consume step |
| DirectoryProcessor.WriteLedgers | directory_processor.py:118-138 | the ledger writes and the closing message are those Closing gives |
| DirectoryProcessor.ProcessDirectory | directory_processor.py:18-145 | process_directory's operations are those DirectorySpec gives |
| DirectoryProcessor.LastGoodIsLatestLoaded | directory_processor.py:69-77 | after any completion order, the last good landmarks are those of the latest completed frame that was detected and whose landmark file loaded |
| DirectoryProcessor.LatestLoadedIsLatest | directory_processor.py:69-77 | there are none exactly when no such frame completed; otherwise they come from one such frame with none after it |
| DirectoryProcessor.RowsFollowCompletions | directory_processor.py:62-108 | the result ledger has one row per completion, in completion order, each for its own frame |
| DirectoryProcessor.RetrievalFailure | directory_processor.py:110-116 | a future that raises gives a failure row without a level and an exception entry, performs no operation and keeps the last good landmarks |
| DirectoryProcessor.FailureWithoutLastGood | directory_processor.py:78-81 | a failed frame with no earlier success is recorded with the worker's message and level, and nothing is written for it |
| DirectoryProcessor.SubstituteWritten | directory_processor.py:83-102 | a failed frame after a success gets the last good landmarks saved and drawn as its substitute |
| DirectoryProcessor.SubstituteRaised | directory_processor.py:83-116 | when writing a substitute raises, the operations before the failing one still happen; the frame gets a second, exception entry and a failure row without a level |
| DirectoryProcessor.SubstituteTargetsFailureArtifacts | directory_processor.py:84-99 | the substitute overwrites the failed frame's own `_ng` landmark file, reads its `_ng` arrays and redraws its `_ng` comparison |
| DirectoryProcessor.SuccessfulFrame | directory_processor.py:69-77 | a detected frame whose landmark file loads gives a success row with its level; its landmarks, read from the worker's own file, become the last good ones |
| DirectoryProcessor.NoFailuresIffAllSucceed | directory_processor.py:78-116 | the not-detected ledger is empty exactly when every row is a success |
| DirectoryProcessor.RowsAgree | directory_processor.py:104-108 | when worker results are consistent, every row shows a level exactly when it shows success |
| DirectoryProcessor.RowsAgreeForWorkerResults | directory_processor.py:71-108 | when every future that returns carries what process_image_wrapper returns for its own file, every row shows a level exactly when it shows success |
| DirectoryProcessor.LedgerCoversInputFiles | directory_processor.py:51-108 | the result ledger has one row per input file, and its rows name exactly the frames of the input files |
| DirectoryProcessor.SubstituteIsLatestLoaded | directory_processor.py:83-88 | a failed frame's substitute is the landmarks of the latest earlier frame that contributed |
| DirectoryProcessor.CompletionOrderExample | directory_processor.py:62-102 | for the order [success A, failure B, success C, failure D], B gets A's landmarks, D gets C's and not A's, and C's are the last good ones at the end |
| DirectoryProcessor.RowIsOneLine | directory_processor.py:122-128 | a row whose file name has no line break is exactly one line |
| DirectoryProcessor.ResultLedgerLineCount | directory_processor.py:119-128 | the result ledger is the header line plus one line per row |
| DirectoryProcessor.NotDetectedLedgerLineCount | directory_processor.py:131-135 | the not-detected ledger has one line per entry when no name or message holds a line break |
| DirectoryProcessor.EmptyInputOnlyReports | directory_processor.py:34-37 | without input files the run only reports; it creates no directory, starts no pool and writes no ledger |
| DirectoryProcessor.DirectoryRunShape | directory_processor.py:39-116 | a run with files makes the three directories, starts a pool of WorkerCount workers, submits one job per file, performs the loop's operations in completion order and then the closing writes |
| DirectoryProcessor.ClosingShape | directory_processor.py:118-138 | the result ledger is always written first; the all-detected message ends the run exactly when nothing failed; otherwise the not-detected ledger is written second; no text is written after that |
| Inference.EnsurePredictor | inference.py:14-22 | a missing model file raises FileNotFoundError with the prefix and the path; an existing one is loaded |
| Inference.Collaborators | inference.py:43-44 | a missing config means `Config()`; a given predictor is used as is; otherwise the predictor is loaded from the config's model path, and its failure is the call's failure |
| Inference.ReconcileKeepingLevel | inference.py:52-53 | "detected" without landmarks becomes "not detected", and the level is kept |
| Inference.InferredFrom | inference.py:52-60 | the result is detected exactly when detection found landmarks; the landmarks are the detected set or the template, cast to int32; there is no bounding box |
| Inference.ArrayInferenceResult | inference.py:25-60 | a detected result carries 68 int32 points; otherwise it carries the int32 template |
| Inference.AsWrittenNeverReturns | inference.py:60 | as written, landmarks_from_array never returns: every call the corrected version answers raises AttributeError |
| Inference.PathAsWrittenNeverReturns | inference.py:97 | as written, landmarks_from_path never returns either: every path the corrected version answers raises the same AttributeError |
| Inference.AsWrittenCounterexample | inference.py:60 | a detector that finds no face: the corrected call returns the template, the call as written raises AttributeError |
| Inference.ConsistencyRulesCompared | inference.py:52-53 | landmarks_from_array and process_image agree on whether a face was detected; only process_image clears the level |
| Inference.LandmarksFromArray | inference.py:25-60 | landmarks_from_array, mutating is_detected in place, returns what ArrayInference gives |
| Inference.ReadImage | inference.py:77-95 | a path whose lower-cased form ends in ".npy" and that loads gives that array; otherwise the decoded image; a decoder that raises or gives None is a RuntimeError naming the path |
| Inference.ReadImageFailure | inference.py:87-95 | reading fails exactly when no array loads and the decoder gives no image, always with a RuntimeError that starts with the prefix and the path |
| Inference.TriesNpyByLastFour | inference.py:81 | the ".npy" test reads only the last four characters, compared after ASCII lower-casing |
| Inference.TriesNpyExamples | inference.py:81 | "frame.NPY" and "a/b.Npy" are tried as arrays; "frame.png" and "npy" are not |
| Inference.PredictorBeforeImage | inference.py:74-75 | the predictor is settled before any file is read: a model that cannot be loaded fails the call whatever the file |
| Inference.PathDelegatesToArray | inference.py:97 | once an image is read, landmarks_from_path answers what landmarks_from_array answers for it, with the same config and predictor |
| Inference.LandmarksFromPath | inference.py:63-97 | landmarks_from_path returns what PathInference gives |

## Left out

- Pixel work is left out: loading, min-max normalisation to uint8, preprocessing, image decoding and drawing the comparison figure. The model passes these through as parameters or records them as effects. Floating point is not modelled.
- Logging, `print`, `tqdm` progress output and the final summary of directories printed by process_directory are left out. The "no files" message and the closing message are kept as `Report` effects, because they decide control flow.
- Concurrency is left out. The pool is a `StartPool` effect, each job a `Submit` effect, and the completion order a parameter. The completions are constrained to hand back each submitted file exactly once. What a worker returns is a free parameter of the model; DirectoryProcessor.RowsAgreeForWorkerResults ties it to process_image_wrapper, as modelled in `Processor`.
- Writing the ledger files can itself raise; the model writes them without failure.
- DirectoryProcessor.Consume: an exception from `tqdm.write` or from building the not-detected entry is not modelled. Only `future.result()`, the landmark file check and load, and the substitute writes can fail.
- Processor.ProcessSpec: an exception inside normalisation or preprocessing is not modelled separately, because it takes the same handler as a load failure.
- Inference.Collaborators: Python truthiness is reduced to presence. A config or predictor object that is present but falsy is not modelled.
- Inference.TriesNpy: `str.lower()` is modelled for ASCII letters only; Unicode case mapping is left out.
- Inference.InferredFrom: the level kept by landmarks_from_array is not part of its return value, so it can be seen only on the mutated object inside LandmarksFromArray.
- Inference.ArrayInference: an exception raised by `preprocess_image` (inference.py:47) is not modelled; `Host.preprocess` is total.
- `LandmarkDetector.Detect` takes the detector as a parameter. `dlib.get_frontal_face_detector()` is not part of this model.
- Facts about the code that the model follows:
  - The code applies no bounding-box adjustment before prediction: the predictor receives the detector's first region unchanged (landmark_detector.py:53-54, 74), and processor.py:75-85 never passes a box to `save_processed_files`.
  - When prediction raises, detect_landmarks keeps the level it found (landmark_detector.py:79-88). process_image clears it (processor.py:58-60). landmarks_from_array does not (inference.py:52-53).
  - The level list is fixed in the code: 0..4 for mode "high" and 0..3 otherwise (landmark_detector.py:38-41).
  - The result ledger header is "ファイル名,最適なパラメータ,検出結果" (directory_processor.py:121).
  - process_directory keeps no success or failure counters; the model records only the lists it keeps (directory_processor.py:29-31).
  - A frame B that fails after a successful frame A gets A's landmarks as its substitute whenever A's landmark file loads (directory_processor.py:75-101, DirectoryProcessor.CompletionOrderExample).

## Findings

| source | as written | input that shows it | evidently intended | confidence | as-written member | corrected member |
|---|---|---|---|---|---|---|
| inference.py:60 | returns `result.bounding_box`, but the DetectionResult of data_models.py:15-21 has no such field, so every call whose detection completes raises AttributeError | an empty image, mode "normal", a given predictor and a detector that finds no face at any level | return None as the third value, the default of `bounding_box` in data_types.py:22 | high; not executed | Inference.AsWrittenCounterexample | Inference.LandmarksFromArray |
