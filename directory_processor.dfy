/** The batch orchestrator (directory_processor.py): one input directory, its
    frames dispatched to a pool, their results consumed one at a time in
    completion order, then the two ledgers. */
module DirectoryProcessor {
  import opened Wrappers
  import opened Text
  import opened Paths
  import opened DataModels
  import opened ImageUtils
  import Processor
  import LandmarkDetector

  const EXCEPTION_PREFIX: string := "処理例外: "
  const RESULT_HEADER: string := "ファイル名,最適なパラメータ,検出結果\n"
  const RESULT_FILE: string := "detection_results.txt"
  const NOT_DETECTED_FILE: string := "not_detected.txt"
  const ALL_DETECTED_MESSAGE: string := "\nすべての画像で顔が検出されました！"

  /** The console message for an input directory without `.npy` files. */
  function NoFilesMessage(inputDir: string): string {
    "エラー: " + inputDir + " 内に.npyファイルが見つかりません。"
  }

  /** The console message naming the not-detected ledger and its entry count. */
  function NotDetectedSavedMessage(outTxt: string, count: nat): string {
    "\n顔が検出できなかったファイル一覧を " + outTxt + " に保存しました（" + NatToString(count) + "件）"
  }

  /** The pool size: all host cores but two, and at least one worker. */
  function WorkerCount(cpuCount: nat): (n: nat)
    ensures n >= 1 && n + 2 >= cpuCount
    ensures n == 1 || n + 2 == cpuCount
  {
    if cpuCount > 2 then cpuCount - 2 else 1
  }

  lemma WorkerCountExamples()
    ensures WorkerCount(8) == 6 && WorkerCount(3) == 1 && WorkerCount(2) == 1 && WorkerCount(1) == 1
  {
  }

  // ---------------------------------------------------------------------------
  // What the consumer loop sees and keeps

  /** How `future.result()` ends: the worker's ProcessResult, or an exception
      raised while retrieving it (a crashed worker, say). */
  datatype Retrieval = Returned(result: ProcessResult) | RetrievalRaised(message: string)

  /** For a detected frame: whether `{base}_landmarks.npy` exists and how
      `np.load` of it ends. */
  datatype SavedLandmarks = Absent | Loaded(landmarks: Landmarks) | LoadRaised(message: string)

  /** One future as `as_completed` hands it over, with what the file system does
      while it is consumed: `substituteFault` says which of the four operations
      that write a substitute (if any) raises. */
  datatype Completion = Completion(imgFile: string, retrieval: Retrieval, saved: SavedLandmarks,
                                   substituteFault: Fault)

  /** One entry of `detection_results`. */
  datatype Row = Row(base: string, bestUpsample: Option<int>, success: bool)

  /** One entry of `not_detected`. */
  datatype NotDetected = NotDetected(base: string, message: string, detectionInfo: seq<Info>)

  /** The loop's variables, and the file operations it has performed. */
  datatype RunState = RunState(lastGood: Option<Landmarks>, notDetected: seq<NotDetected>, rows: seq<Row>,
                               effects: seq<Effect>)

  const INITIAL: RunState := RunState(None, [], [], [])

  /** The file operations that substitute the last good landmarks for a failed
      frame: save them as its `_ng` landmark file, read its two `_ng` images,
      render the comparison. */
  function SubstituteEffects(base: string, dirs: OutputDirs, lastGood: Landmarks): (steps: seq<Effect>)
    ensures |steps| == 4
  {
    [SaveLandmarks(Join(dirs.landmarks, base + "_landmarks_ng.npy"), lastGood),
     LoadArray(Join(dirs.orignorm, base + "_orignorm_ng.npy")),
     LoadArray(Join(dirs.processed, base + "_processed_ng.npy")),
     RenderComparison(Join(ComparisonDir(dirs.orignorm), base + "_comparison_ng.png"), lastGood)]
  }

  /** The exception handler of the loop body. */
  function Handle(st: RunState, base: string, message: string): (st': RunState)
    ensures st'.lastGood == st.lastGood && st'.effects == st.effects
    ensures st'.rows == st.rows + [Row(base, None, false)]
    ensures st'.notDetected == st.notDetected + [NotDetected(base, EXCEPTION_PREFIX + message, [])]
  {
    st.(notDetected := st.notDetected + [NotDetected(base, EXCEPTION_PREFIX + message, [])],
        rows := st.rows + [Row(base, None, false)])
  }

  /** The body of the consumer loop for one completed future. */
  function Consume(st: RunState, c: Completion, dirs: OutputDirs): (st': RunState)
    ensures |st'.rows| == |st.rows| + 1 && st'.rows == st.rows + [st'.rows[|st.rows|]]
    ensures st'.rows[|st.rows|].base == BaseName(c.imgFile)
    ensures st.notDetected <= st'.notDetected && st.effects <= st'.effects
    ensures st'.lastGood == if Contributes(c) then Some(c.saved.landmarks) else st.lastGood
    ensures st'.rows[|st.rows|].success <==> st'.notDetected == st.notDetected
    ensures (c.retrieval.Returned? ==> Processor.Consistent(c.retrieval.result))
        ==> (st'.rows[|st.rows|].bestUpsample.Some? <==> st'.rows[|st.rows|].success)
  {
    var base := BaseName(c.imgFile);
    match c.retrieval
    case RetrievalRaised(message) => Handle(st, base, message)
    case Returned(result) =>
      if result.isDetected then
        match c.saved
        case Absent => st.(rows := st.rows + [Row(base, result.bestUpsample, true)])
        case Loaded(landmarks) =>
          st.(lastGood := Some(landmarks),
              rows := st.rows + [Row(base, result.bestUpsample, true)],
              effects := st.effects + [LoadArray(Join(dirs.landmarks, base + "_landmarks.npy"))])
        case LoadRaised(message) => Handle(st, base, message)
      else
        var failed := st.(notDetected := st.notDetected + [NotDetected(base, result.message, result.detectionInfo)]);
        if st.lastGood.None? then failed.(rows := st.rows + [Row(base, result.bestUpsample, false)])
        else
          var steps := SubstituteEffects(base, dirs, st.lastGood.value);
          var done := Performed(steps, c.substituteFault);
          if |done| < |steps| then Handle(failed.(effects := st.effects + done), base, c.substituteFault.message)
          else failed.(rows := st.rows + [Row(base, result.bestUpsample, false)], effects := st.effects + done)
  }

  /** The loop's state after consuming `cs` in order. */
  function ConsumeAll(cs: seq<Completion>, dirs: OutputDirs): (st: RunState)
    ensures |st.rows| == |cs|
  {
    if cs == [] then INITIAL else Consume(ConsumeAll(cs[..|cs| - 1], dirs), cs[|cs| - 1], dirs)
  }

  // ---------------------------------------------------------------------------
  // Ledgers

  /** The file name a result ledger row shows for r. */
  function ResultFilename(r: Row): string {
    r.base + (if !r.success then "_ng" else "") + ".npy"
  }

  /** The first write of a row: its file name and its level, or the
      detection-failed marker. */
  function RowHead(r: Row): string {
    if r.bestUpsample.Some? then ResultFilename(r) + ",upsample:" + IntToString(r.bestUpsample.value)
    else ResultFilename(r) + ",検出失敗"
  }

  /** The second write of a row: its verdict and the line break. */
  function RowTail(r: Row): string {
    "," + (if r.success then "成功" else "失敗") + "\n"
  }

  /** One line of the result ledger. */
  function RowLine(r: Row): string {
    RowHead(r) + RowTail(r)
  }

  function RowLines(rows: seq<Row>): string {
    if rows == [] then "" else RowLines(rows[..|rows| - 1]) + RowLine(rows[|rows| - 1])
  }

  /** The text of detection_results.txt. */
  function ResultLedger(rows: seq<Row>): string {
    RESULT_HEADER + RowLines(rows)
  }

  /** One line of not_detected.txt. */
  function NotDetectedLine(n: NotDetected): string {
    n.base + "_ng.npy - " + n.message + "\n"
  }

  lemma ResultLedgerGrows(rows: seq<Row>, r: Row)
    ensures ResultLedger(rows + [r]) == (ResultLedger(rows) + RowHead(r)) + RowTail(r)
  {
    assert (rows + [r])[..|rows|] == rows;
    var h, p, a, b := RESULT_HEADER, RowLines(rows), RowHead(r), RowTail(r);
    calc {
      ResultLedger(rows + [r]);
      h + (p + (a + b));
      { Associative(p, a, b); }
      h + ((p + a) + b);
      { Associative(h, p + a, b); }
      (h + (p + a)) + b;
      { Associative(h, p, a); }
      ((h + p) + a) + b;
    }
  }

  lemma Associative(a: string, b: string, c: string)
    ensures a + (b + c) == (a + b) + c
  {
  }

  /** The text of not_detected.txt. */
  function NotDetectedLedger(entries: seq<NotDetected>): string {
    if entries == [] then "" else NotDetectedLedger(entries[..|entries| - 1]) + NotDetectedLine(entries[|entries| - 1])
  }

  /** The loop that writes detection_results.txt, one `f.write` at a time. */
  method WriteResultLedger(rows: seq<Row>) returns (text: string)
    ensures text == ResultLedger(rows)
  {
    text := RESULT_HEADER;
    var i := 0;
    while i < |rows|
      invariant 0 <= i <= |rows|
      invariant text == ResultLedger(rows[..i])
    {
      text := WriteRow(text, rows[i]);
      assert rows[..i + 1] == rows[..i] + [rows[i]];
      ResultLedgerGrows(rows[..i], rows[i]);
      i := i + 1;
    }
    assert rows[..i] == rows;
  }

  /** The two writes of one ledger row. */
  method WriteRow(text: string, row: Row) returns (text': string)
    ensures text' == (text + RowHead(row)) + RowTail(row)
  {
    text' := text;
    var resultFilename := row.base + (if !row.success then "_ng" else "") + ".npy";
    if row.bestUpsample.Some? {
      text' := text' + (resultFilename + ",upsample:" + IntToString(row.bestUpsample.value));
    } else {
      text' := text' + (resultFilename + ",検出失敗");
    }
    text' := text' + ("," + (if row.success then "成功" else "失敗") + "\n");
  }

  /** The loop that writes not_detected.txt. */
  method WriteNotDetectedLedger(entries: seq<NotDetected>) returns (text: string)
    ensures text == NotDetectedLedger(entries)
  {
    text := "";
    var i := 0;
    while i < |entries|
      invariant 0 <= i <= |entries|
      invariant text == NotDetectedLedger(entries[..i])
    {
      text := text + (entries[i].base + "_ng.npy - " + entries[i].message + "\n");
      assert entries[..i + 1][..i] == entries[..i];
      i := i + 1;
    }
    assert entries[..i] == entries;
  }

  // ---------------------------------------------------------------------------
  // process_directory

  /** One Submit per input file, in glob order, each carrying the same
      directories and configuration. */
  function Submissions(imgFiles: seq<string>, dirs: OutputDirs, config: Config): (steps: seq<Effect>)
    ensures |steps| == |imgFiles|
    ensures forall k :: 0 <= k < |imgFiles| ==>
      steps[k] == Submit(Job(imgFiles[k], dirs.orignorm, dirs.processed, dirs.landmarks, config))
  {
    seq(|imgFiles|, k requires 0 <= k < |imgFiles| =>
      Submit(Job(imgFiles[k], dirs.orignorm, dirs.processed, dirs.landmarks, config)))
  }

  /** What follows the consumer loop: the result ledger, then either the
      not-detected ledger and its message or the all-detected message. */
  function Closing(st: RunState, dirs: OutputDirs, config: Config): (steps: seq<Effect>)
    ensures |steps| == if st.notDetected == [] then 2 else 3
    ensures steps[0] == WriteText(Join(config.outputBaseDir, RESULT_FILE), ResultLedger(st.rows))
  {
    var resultFile := Join(config.outputBaseDir, RESULT_FILE);
    var outTxt := Join(Dirname(dirs.orignorm), NOT_DETECTED_FILE);
    [WriteText(resultFile, ResultLedger(st.rows))]
      + (if st.notDetected != [] then
           [WriteText(outTxt, NotDetectedLedger(st.notDetected)),
            Report(NotDetectedSavedMessage(outTxt, |st.notDetected|))]
         else [Report(ALL_DETECTED_MESSAGE)])
  }

  /** The files of the futures, in the order they complete. */
  function CompletedFiles(completions: seq<Completion>): (files: seq<string>)
    ensures |files| == |completions|
    ensures forall k :: 0 <= k < |completions| ==> files[k] == completions[k].imgFile
  {
    seq(|completions|, k requires 0 <= k < |completions| => completions[k].imgFile)
  }

  /** `as_completed` hands over every submitted future exactly once: the
      completed files are the glob's files in some order. */
  predicate CompletesEachJob(completions: seq<Completion>, imgFiles: seq<string>) {
    multiset(CompletedFiles(completions)) == multiset(imgFiles)
  }

  /** process_directory, given the glob result, the host's core count and the
      order in which the futures complete. */
  function DirectorySpec(inputDir: string, detectionMode: string, baseConfig: Config, imgFiles: seq<string>,
                         cpuCount: nat, completions: seq<Completion>): (effects: seq<Effect>)
    requires CompletesEachJob(completions, imgFiles)
    ensures imgFiles == [] ==> |effects| == 1
  {
    if imgFiles == [] then [Report(NoFilesMessage(inputDir))]
    else
      var config := baseConfig.(detectionMode := detectionMode);
      var dirs := SetupDirectories(config.outputBaseDir, inputDir);
      var st := ConsumeAll(completions, dirs);
      SetupEffects(dirs) + [StartPool(WorkerCount(cpuCount))] + Submissions(imgFiles, dirs, config)
        + st.effects + Closing(st, dirs, config)
  }

  /** The body of the consumer loop (directory_processor.py) for one completed
      future; `consumed` logs the file operations of the loop. */
  method ConsumeCompletion(c: Completion, dirs: OutputDirs, lastGood: Option<Landmarks>,
                           notDetected: seq<NotDetected>, rows: seq<Row>, consumed: seq<Effect>)
    returns (lastGood': Option<Landmarks>, notDetected': seq<NotDetected>, rows': seq<Row>, consumed': seq<Effect>)
    ensures RunState(lastGood', notDetected', rows', consumed')
         == Consume(RunState(lastGood, notDetected, rows, consumed), c, dirs)
  {
    lastGood', notDetected', rows', consumed' := lastGood, notDetected, rows, consumed;
    var baseFilename := BaseName(c.imgFile);
    var handled := false;
    var message := "";
    match c.retrieval {
      case RetrievalRaised(m) =>
        handled, message := true, m;
      case Returned(result) =>
        if result.isDetected {
          match c.saved {
            case Absent =>
            case Loaded(landmarks) =>
              consumed' := consumed' + [LoadArray(Join(dirs.landmarks, baseFilename + "_landmarks.npy"))];
              lastGood' := Some(landmarks);
            case LoadRaised(m) =>
              handled, message := true, m;
          }
        } else {
          notDetected' := notDetected' + [NotDetected(baseFilename, result.message, result.detectionInfo)];
          if lastGood'.Some? {
            var steps := SubstituteEffects(baseFilename, dirs, lastGood'.value);
            var done := Performed(steps, c.substituteFault);
            consumed' := consumed' + done;
            if |done| < |steps| {
              handled, message := true, c.substituteFault.message;
            }
          }
        }
        if !handled {
          rows' := rows' + [Row(baseFilename, result.bestUpsample, result.isDetected)];
        }
    }
    if handled {
      notDetected' := notDetected' + [NotDetected(baseFilename, EXCEPTION_PREFIX + message, [])];
      rows' := rows' + [Row(baseFilename, None, false)];
    }
  }

  /** The consumer loop of process_directory: each future as it completes. */
  method ConsumeLoop(completions: seq<Completion>, dirs: OutputDirs) returns (st: RunState)
    ensures st == ConsumeAll(completions, dirs)
  {
    st := INITIAL;
    var i := 0;
    while i < |completions|
      invariant 0 <= i <= |completions|
      invariant st == ConsumeAll(completions[..i], dirs)
    {
      var lastGood, notDetected, rows, consumed :=
        ConsumeCompletion(completions[i], dirs, st.lastGood, st.notDetected, st.rows, st.effects);
      ConsumeAllStep(completions, i, dirs);
      st := RunState(lastGood, notDetected, rows, consumed);
      i := i + 1;
    }
    assert completions[..i] == completions;
  }

  lemma ConsumeAllStep(cs: seq<Completion>, i: nat, dirs: OutputDirs)
    requires i < |cs|
    ensures ConsumeAll(cs[..i + 1], dirs) == Consume(ConsumeAll(cs[..i], dirs), cs[i], dirs)
  {
    assert cs[..i + 1][..i] == cs[..i];
  }

  /** The ledger writes and the closing message of process_directory. */
  method WriteLedgers(st: RunState, dirs: OutputDirs, config: Config) returns (steps: seq<Effect>)
    ensures steps == Closing(st, dirs, config)
  {
    var resultFile := Join(config.outputBaseDir, RESULT_FILE);
    var ledger := WriteResultLedger(st.rows);
    steps := [WriteText(resultFile, ledger)];
    if st.notDetected != [] {
      var outTxt := Join(Dirname(dirs.orignorm), NOT_DETECTED_FILE);
      var text := WriteNotDetectedLedger(st.notDetected);
      steps := steps + [WriteText(outTxt, text), Report(NotDetectedSavedMessage(outTxt, |st.notDetected|))];
    } else {
      steps := steps + [Report(ALL_DETECTED_MESSAGE)];
    }
  }

  /** process_directory (directory_processor.py). */
  method ProcessDirectory(inputDir: string, detectionMode: string, baseConfig: Config, imgFiles: seq<string>,
                          cpuCount: nat, completions: seq<Completion>)
    returns (effects: seq<Effect>)
    requires CompletesEachJob(completions, imgFiles)
    ensures effects == DirectorySpec(inputDir, detectionMode, baseConfig, imgFiles, cpuCount, completions)
  {
    var config := baseConfig.(detectionMode := detectionMode);
    if imgFiles == [] {
      return [Report(NoFilesMessage(inputDir))];
    }
    var dirs := SetupDirectories(config.outputBaseDir, inputDir);
    effects := SetupEffects(dirs);
    var maxWorkers := if cpuCount > 2 then cpuCount - 2 else 1;
    assert maxWorkers == WorkerCount(cpuCount);
    effects := effects + [StartPool(maxWorkers)] + Submissions(imgFiles, dirs, config);
    var st := ConsumeLoop(completions, dirs);
    effects := effects + st.effects;
    var closing := WriteLedgers(st, dirs, config);
    effects := effects + closing;
  }

  // ---------------------------------------------------------------------------
  // Properties of the consumer loop

  /** A completion whose frame was detected and whose saved landmarks load. */
  predicate Contributes(c: Completion) {
    c.retrieval.Returned? && c.retrieval.result.isDetected && c.saved.Loaded?
  }

  /** The landmarks of the latest contributing frame of `cs`, if any. */
  function LatestLoaded(cs: seq<Completion>): Option<Landmarks> {
    if cs == [] then None
    else if Contributes(cs[|cs| - 1]) then Some(cs[|cs| - 1].saved.landmarks)
    else LatestLoaded(cs[..|cs| - 1])
  }

  /** The loop's last good landmarks are those of the latest contributing frame. */
  lemma {:induction false} LastGoodIsLatestLoaded(cs: seq<Completion>, dirs: OutputDirs)
    ensures ConsumeAll(cs, dirs).lastGood == LatestLoaded(cs)
  {
    if cs != [] {
      var init := cs[..|cs| - 1];
      LastGoodIsLatestLoaded(init, dirs);
      assert ConsumeAll(cs, dirs) == Consume(ConsumeAll(init, dirs), cs[|cs| - 1], dirs);
    }
  }

  /** The latest contributing frame, characterised: absent exactly when no
      frame contributed, and otherwise a contributing frame after which none
      did. */
  lemma {:induction false} LatestLoadedIsLatest(cs: seq<Completion>)
    ensures LatestLoaded(cs).None? <==> forall k :: 0 <= k < |cs| ==> !Contributes(cs[k])
    ensures LatestLoaded(cs).Some? ==>
      exists k :: 0 <= k < |cs| && Contributes(cs[k]) && LatestLoaded(cs).value == cs[k].saved.landmarks
        && forall j :: k < j < |cs| ==> !Contributes(cs[j])
  {
    if cs != [] {
      var init, last := cs[..|cs| - 1], cs[|cs| - 1];
      LatestLoadedIsLatest(init);
      assert forall k :: 0 <= k < |init| ==> init[k] == cs[k];
      if Contributes(last) {
        assert Contributes(cs[|cs| - 1]);
      } else if LatestLoaded(init).Some? {
        var k :| 0 <= k < |init| && Contributes(init[k]) && LatestLoaded(init).value == init[k].saved.landmarks
          && forall j :: k < j < |init| ==> !Contributes(init[j]);
        assert Contributes(cs[k]);
        forall j | k < j < |cs| ensures !Contributes(cs[j]) {
          if j < |init| {
            assert !Contributes(init[j]);
          }
        }
      } else {
        forall k | 0 <= k < |cs| ensures !Contributes(cs[k]) {
          if k < |init| {
            assert !Contributes(init[k]);
          }
        }
      }
    }
  }

  /** Each consumed future adds exactly one row, for its own file, in
      completion order. */
  lemma {:induction false} RowsFollowCompletions(cs: seq<Completion>, dirs: OutputDirs)
    ensures |ConsumeAll(cs, dirs).rows| == |cs|
    ensures forall k :: 0 <= k < |cs| ==> ConsumeAll(cs, dirs).rows[k].base == BaseName(cs[k].imgFile)
  {
    if cs != [] {
      var init := cs[..|cs| - 1];
      var prev := ConsumeAll(init, dirs);
      RowsFollowCompletions(init, dirs);
      var st := ConsumeAll(cs, dirs);
      assert st == Consume(prev, cs[|cs| - 1], dirs);
      assert st.rows[|prev.rows|].base == BaseName(cs[|cs| - 1].imgFile);
      forall k | 0 <= k < |cs| ensures st.rows[k].base == BaseName(cs[k].imgFile) {
        if k < |init| {
          assert st.rows[k] == prev.rows[k] && init[k] == cs[k];
        } else {
          assert k == |prev.rows|;
        }
      }
    }
  }

  /** A future whose retrieval raises: a failure row without a level, an
      exception entry, no file operation and the same last good landmarks. */
  lemma RetrievalFailure(st: RunState, c: Completion, dirs: OutputDirs)
    requires c.retrieval.RetrievalRaised?
    ensures var st' := Consume(st, c, dirs);
      && st'.rows == st.rows + [Row(BaseName(c.imgFile), None, false)]
      && st'.notDetected == st.notDetected + [NotDetected(BaseName(c.imgFile), EXCEPTION_PREFIX + c.retrieval.message, [])]
      && st'.effects == st.effects
      && st'.lastGood == st.lastGood
  {
  }

  /** A frame the worker did not detect, with no last good landmarks yet: it
      is recorded as not detected with the worker's message and its level, and
      nothing is written for it. */
  lemma FailureWithoutLastGood(st: RunState, c: Completion, dirs: OutputDirs)
    requires c.retrieval.Returned? && !c.retrieval.result.isDetected && st.lastGood.None?
    ensures var st', r, base := Consume(st, c, dirs), c.retrieval.result, BaseName(c.imgFile);
      && st'.lastGood == None
      && st'.effects == st.effects
      && st'.rows == st.rows + [Row(base, r.bestUpsample, false)]
      && st'.notDetected == st.notDetected + [NotDetected(base, r.message, r.detectionInfo)]
  {
  }

  /** A frame the worker did not detect, after a frame that was: the last good
      landmarks are written as its substitute and kept. */
  lemma SubstituteWritten(st: RunState, c: Completion, dirs: OutputDirs)
    requires c.retrieval.Returned? && !c.retrieval.result.isDetected && st.lastGood.Some?
    requires c.substituteFault.NoFault? || c.substituteFault.step >= 4
    ensures var st', r, base := Consume(st, c, dirs), c.retrieval.result, BaseName(c.imgFile);
      && st'.lastGood == st.lastGood
      && st'.effects == st.effects + SubstituteEffects(base, dirs, st.lastGood.value)
      && st'.rows == st.rows + [Row(base, r.bestUpsample, false)]
      && st'.notDetected == st.notDetected + [NotDetected(base, r.message, r.detectionInfo)]
  {
    var base := BaseName(c.imgFile);
    var steps := SubstituteEffects(base, dirs, st.lastGood.value);
    assert Performed(steps, c.substituteFault) == steps;
  }

  /** A frame the worker did not detect, when writing its substitute raises:
      the operations before the failing one happen, the frame gets a second
      not-detected entry for the exception and a failure row without a level. */
  lemma SubstituteRaised(st: RunState, c: Completion, dirs: OutputDirs)
    requires c.retrieval.Returned? && !c.retrieval.result.isDetected && st.lastGood.Some?
    requires c.substituteFault.FaultAt? && c.substituteFault.step < 4
    ensures var st', r, base := Consume(st, c, dirs), c.retrieval.result, BaseName(c.imgFile);
      && st'.lastGood == st.lastGood
      && st'.effects == st.effects + SubstituteEffects(base, dirs, st.lastGood.value)[..c.substituteFault.step]
      && st'.rows == st.rows + [Row(base, None, false)]
      && st'.notDetected == st.notDetected + [NotDetected(base, r.message, r.detectionInfo),
                                              NotDetected(base, EXCEPTION_PREFIX + c.substituteFault.message, [])]
  {
    var base := BaseName(c.imgFile);
    var r := c.retrieval.result;
    var steps := SubstituteEffects(base, dirs, st.lastGood.value);
    var done := steps[..c.substituteFault.step];
    assert Performed(steps, c.substituteFault) == done;
    var failed := st.(notDetected := st.notDetected + [NotDetected(base, r.message, r.detectionInfo)]);
    assert Consume(st, c, dirs) == Handle(failed.(effects := st.effects + done), base, c.substituteFault.message);
    AppendTwo(st.notDetected, NotDetected(base, r.message, r.detectionInfo),
              NotDetected(base, EXCEPTION_PREFIX + c.substituteFault.message, []));
  }

  lemma AppendTwo<T>(s: seq<T>, x: T, y: T)
    ensures (s + [x]) + [y] == s + [x, y]
  {
  }

  /** The substitute overwrites the failed frame's own `_ng` landmark file and
      comparison image, and reads its two `_ng` images, under the names the
      worker gave them. */
  lemma SubstituteTargetsFailureArtifacts(imgFile: string, dirs: OutputDirs, lastGood: Landmarks)
    ensures var steps := SubstituteEffects(BaseName(imgFile), dirs, lastGood);
      && steps[0] == SaveLandmarks(ArtifactPath(dirs.landmarks, imgFile, "landmarks", false, ".npy"), lastGood)
      && steps[1] == LoadArray(ArtifactPath(dirs.orignorm, imgFile, "orignorm", false, ".npy"))
      && steps[2] == LoadArray(ArtifactPath(dirs.processed, imgFile, "processed", false, ".npy"))
      && steps[3] == RenderComparison(ArtifactPath(ComparisonDir(dirs.orignorm), imgFile, "comparison", false, ".png"), lastGood)
  {
    SpelledNames();
    FailurePath(dirs.landmarks, imgFile, "landmarks", ".npy", "_landmarks_ng.npy");
    FailurePath(dirs.orignorm, imgFile, "orignorm", ".npy", "_orignorm_ng.npy");
    FailurePath(dirs.processed, imgFile, "processed", ".npy", "_processed_ng.npy");
    FailurePath(ComparisonDir(dirs.orignorm), imgFile, "comparison", ".png", "_comparison_ng.png");
  }

  /** The names the consumer loop spells out in one piece. */
  lemma SpelledNames()
    ensures "_" + "landmarks" + FAILURE_SUFFIX + ".npy" == "_landmarks_ng.npy"
    ensures "_" + "orignorm" + FAILURE_SUFFIX + ".npy" == "_orignorm_ng.npy"
    ensures "_" + "processed" + FAILURE_SUFFIX + ".npy" == "_processed_ng.npy"
    ensures "_" + "comparison" + FAILURE_SUFFIX + ".png" == "_comparison_ng.png"
    ensures "_" + "landmarks" + Suffix(true) + ".npy" == "_landmarks.npy"
  {
  }

  lemma FailurePath(dir: string, imgFile: string, kind: string, ext: string, whole: string)
    requires "_" + kind + FAILURE_SUFFIX + ext == whole
    ensures Join(dir, BaseName(imgFile) + whole) == ArtifactPath(dir, imgFile, kind, false, ext)
  {
    NameParts(BaseName(imgFile), kind, Suffix(false), ext, whole);
  }

  /** A detected frame whose landmark file loads: a success row with its
      level, no not-detected entry, and its landmarks, read from the file the
      worker saved them to, become the last good ones. */
  lemma SuccessfulFrame(st: RunState, c: Completion, dirs: OutputDirs)
    requires Contributes(c)
    ensures var st', r := Consume(st, c, dirs), c.retrieval.result;
      && st'.lastGood == Some(c.saved.landmarks)
      && st'.effects == st.effects + [LoadArray(ArtifactPath(dirs.landmarks, c.imgFile, "landmarks", true, ".npy"))]
      && st'.rows == st.rows + [Row(BaseName(c.imgFile), r.bestUpsample, true)]
      && st'.notDetected == st.notDetected
  {
    var base := BaseName(c.imgFile);
    assert Consume(st, c, dirs).effects == st.effects + [LoadArray(Join(dirs.landmarks, base + "_landmarks.npy"))];
    SpelledNames();
    NameParts(base, "landmarks", "", ".npy", "_landmarks.npy");
  }

  /** A name the loop spells out in one piece is the worker's artifact name. */
  lemma NameParts(base: string, kind: string, suffix: string, ext: string, whole: string)
    requires "_" + kind + suffix + ext == whole
    ensures base + whole == ArtifactName(base, kind, suffix, ext)
  {
    calc {
      ArtifactName(base, kind, suffix, ext);
      ((base + "_") + kind) + suffix + ext;
      { Associative(base, "_", kind); }
      (base + ("_" + kind)) + suffix + ext;
      { Associative(base, "_" + kind, suffix); }
      (base + ("_" + kind + suffix)) + ext;
      { Associative(base, "_" + kind + suffix, ext); }
      base + whole;
    }
  }

  /** The not-detected list stays empty exactly as long as every row is a success. */
  lemma {:induction false} NoFailuresIffAllSucceed(cs: seq<Completion>, dirs: OutputDirs)
    ensures ConsumeAll(cs, dirs).notDetected == [] <==> forall k :: 0 <= k < |cs| ==> ConsumeAll(cs, dirs).rows[k].success
  {
    if cs != [] {
      var init := cs[..|cs| - 1];
      var prev := ConsumeAll(init, dirs);
      NoFailuresIffAllSucceed(init, dirs);
      var st := ConsumeAll(cs, dirs);
      assert st == Consume(prev, cs[|cs| - 1], dirs);
      assert |prev.rows| == |init|;
      assert st.notDetected == prev.notDetected <==> st.rows[|init|].success;
      assert prev.notDetected <= st.notDetected;
      assert st.notDetected == [] <==> prev.notDetected == [] && st.notDetected == prev.notDetected;
      assert st.rows == prev.rows + [st.rows[|init|]];
      if (forall k :: 0 <= k < |init| ==> prev.rows[k].success) && st.rows[|init|].success {
        forall k | 0 <= k < |cs| ensures st.rows[k].success {
          if k < |init| {
            assert st.rows[k] == prev.rows[k];
          } else {
            assert k == |init|;
          }
        }
      }
      if forall k :: 0 <= k < |cs| ==> st.rows[k].success {
        assert st.rows[|init|].success;
        forall k | 0 <= k < |init| ensures prev.rows[k].success {
          assert st.rows[k] == prev.rows[k];
        }
      }
    }
  }

  /** When every worker result obeys the frame rule (detected exactly when it
      has a level), every ledger row shows a level exactly when it shows
      success. */
  lemma {:induction false} RowsAgree(cs: seq<Completion>, dirs: OutputDirs)
    requires forall k :: 0 <= k < |cs| && cs[k].retrieval.Returned? ==> Processor.Consistent(cs[k].retrieval.result)
    ensures forall k :: 0 <= k < |cs| ==>
      (ConsumeAll(cs, dirs).rows[k].bestUpsample.Some? <==> ConsumeAll(cs, dirs).rows[k].success)
  {
    if cs != [] {
      var init := cs[..|cs| - 1];
      var prev := ConsumeAll(init, dirs);
      forall k | 0 <= k < |init| ensures init[k] == cs[k] { }
      RowsAgree(init, dirs);
      var st := ConsumeAll(cs, dirs);
      assert st == Consume(prev, cs[|cs| - 1], dirs);
      assert |prev.rows| == |init|;
      assert st.rows == prev.rows + [st.rows[|init|]];
      assert st.rows[|init|].bestUpsample.Some? <==> st.rows[|init|].success;
      forall k | 0 <= k < |cs| ensures st.rows[k].bestUpsample.Some? <==> st.rows[k].success {
        if k < |init| {
          assert st.rows[k] == prev.rows[k];
        } else {
          assert k == |init|;
        }
      }
    }
  }

  /** When every future that returns carries what process_image_wrapper
      returned for its own file, every ledger row shows a level exactly when
      it shows success. */
  lemma RowsAgreeForWorkerResults(cs: seq<Completion>, dirs: OutputDirs, config: Config,
                                  shapePredictor: string -> Result<LandmarkDetector.Predictor, string>, frames: seq<Processor.FrameIO>)
    requires |frames| == |cs|
    requires forall k :: 0 <= k < |cs| && cs[k].retrieval.Returned? ==>
      cs[k].retrieval.result
        == Processor.WrapperSpec(Job(cs[k].imgFile, dirs.orignorm, dirs.processed, dirs.landmarks, config),
                                 shapePredictor, frames[k]).result
    ensures forall k :: 0 <= k < |cs| ==>
      (ConsumeAll(cs, dirs).rows[k].bestUpsample.Some? <==> ConsumeAll(cs, dirs).rows[k].success)
  {
    forall k | 0 <= k < |cs| && cs[k].retrieval.Returned? ensures Processor.Consistent(cs[k].retrieval.result) {
      Processor.WrapperResultConsistent(Job(cs[k].imgFile, dirs.orignorm, dirs.processed, dirs.landmarks, config),
                                        shapePredictor, frames[k]);
    }
    RowsAgree(cs, dirs);
  }

  /** A frame that failed in the worker receives, as its substitute, the
      landmarks of the latest earlier frame that contributed. */
  lemma SubstituteIsLatestLoaded(cs: seq<Completion>, i: nat, dirs: OutputDirs)
    requires i < |cs| && cs[i].retrieval.Returned? && !cs[i].retrieval.result.isDetected
    requires cs[i].substituteFault.NoFault? && LatestLoaded(cs[..i]).Some?
    ensures ConsumeAll(cs[..i + 1], dirs).effects
         == ConsumeAll(cs[..i], dirs).effects + SubstituteEffects(BaseName(cs[i].imgFile), dirs, LatestLoaded(cs[..i]).value)
  {
    LastGoodIsLatestLoaded(cs[..i], dirs);
    ConsumeAllStep(cs, i, dirs);
    SubstituteWritten(ConsumeAll(cs[..i], dirs), cs[i], dirs);
  }

  /** The completion order [success A, failure B, success C, failure D], every
      landmark file loading: B's substitute is A's landmarks, D's is C's and
      not A's, and C's landmarks are the last good ones at the end. */
  lemma CompletionOrderExample(dirs: OutputDirs, cs: seq<Completion>, la: Landmarks, lc: Landmarks)
    requires |cs| == 4
    requires Contributes(cs[0]) && cs[0].saved == Loaded(la)
    requires cs[1].retrieval.Returned? && !cs[1].retrieval.result.isDetected && cs[1].substituteFault == NoFault
    requires Contributes(cs[2]) && cs[2].saved == Loaded(lc)
    requires cs[3].retrieval.Returned? && !cs[3].retrieval.result.isDetected && cs[3].substituteFault == NoFault
    ensures ConsumeAll(cs[..2], dirs).effects
         == ConsumeAll(cs[..1], dirs).effects + SubstituteEffects(BaseName(cs[1].imgFile), dirs, la)
    ensures ConsumeAll(cs, dirs).effects
         == ConsumeAll(cs[..3], dirs).effects + SubstituteEffects(BaseName(cs[3].imgFile), dirs, lc)
    ensures ConsumeAll(cs, dirs).lastGood == Some(lc)
  {
    assert cs[..1][..0] == [] && cs[..3][..2] == cs[..2] && cs[..2][..1] == cs[..1] && cs[..4] == cs;
    assert LatestLoaded(cs[..1]) == Some(la);
    assert LatestLoaded(cs[..3]) == Some(lc);
    assert LatestLoaded(cs) == Some(lc);
    SubstituteIsLatestLoaded(cs, 1, dirs);
    SubstituteIsLatestLoaded(cs, 3, dirs);
    LastGoodIsLatestLoaded(cs, dirs);
  }

  // ---------------------------------------------------------------------------
  // Properties of the ledgers

  lemma NoCharAppend(a: string, b: string, c: char)
    requires NoChar(a, c) && NoChar(b, c)
    ensures NoChar(a + b, c)
  {
    forall k | 0 <= k < |a + b| ensures (a + b)[k] != c {
      if k >= |a| { assert (a + b)[k] == b[k - |a|]; }
    }
  }

  lemma IntToStringOneLine(i: int)
    ensures NoChar(IntToString(i), '\n')
  {
    IntToStringRoundTrip(i);
  }

  lemma CountCharLast(s: string, c: char)
    ensures CountChar(s + [c], c) == CountChar(s, c) + 1
  {
    assert (s + [c])[..|s|] == s;
  }

  /** A row is one line of the ledger when its file name has no line break. */
  lemma RowIsOneLine(r: Row)
    requires NoChar(r.base, '\n')
    ensures CountChar(RowLine(r), '\n') == 1
  {
    var name := ResultFilename(r);
    NoCharAppend(r.base, if !r.success then "_ng" else "", '\n');
    NoCharAppend(r.base + (if !r.success then "_ng" else ""), ".npy", '\n');
    if r.bestUpsample.Some? {
      IntToStringOneLine(r.bestUpsample.value);
      NoCharAppend(name, ",upsample:", '\n');
      NoCharAppend(name + ",upsample:", IntToString(r.bestUpsample.value), '\n');
    } else {
      NoCharAppend(name, ",検出失敗", '\n');
    }
    var verdict := "," + (if r.success then "成功" else "失敗");
    assert NoChar(verdict, '\n');
    NoCharAppend(RowHead(r), verdict, '\n');
    CountCharAbsent(RowHead(r) + verdict, '\n');
    assert RowLine(r) == (RowHead(r) + verdict) + ['\n'];
    CountCharLast(RowHead(r) + verdict, '\n');
  }

  /** The result ledger is a header line and one line per row. */
  lemma {:induction false} ResultLedgerLineCount(rows: seq<Row>)
    requires forall k :: 0 <= k < |rows| ==> NoChar(rows[k].base, '\n')
    ensures CountChar(ResultLedger(rows), '\n') == |rows| + 1
  {
    if rows == [] {
      var line := RESULT_HEADER[..|RESULT_HEADER| - 1];
      assert RESULT_HEADER == line + ['\n'];
      assert NoChar(line, '\n');
      CountCharAbsent(line, '\n');
      CountCharLast(line, '\n');
      assert ResultLedger(rows) == RESULT_HEADER;
    } else {
      var init := rows[..|rows| - 1];
      ResultLedgerLineCount(init);
      RowIsOneLine(rows[|rows| - 1]);
      Associative(RESULT_HEADER, RowLines(init), RowLine(rows[|rows| - 1]));
      CountCharAppend(ResultLedger(init), RowLine(rows[|rows| - 1]), '\n');
    }
  }

  /** The not-detected ledger holds one line per entry when no name or message
      contains a line break. */
  lemma {:induction false} NotDetectedLedgerLineCount(entries: seq<NotDetected>)
    requires forall k :: 0 <= k < |entries| ==> NoChar(entries[k].base, '\n') && NoChar(entries[k].message, '\n')
    ensures CountChar(NotDetectedLedger(entries), '\n') == |entries|
  {
    if entries != [] {
      var init, e := entries[..|entries| - 1], entries[|entries| - 1];
      NotDetectedLedgerLineCount(init);
      NoCharAppend(e.base, "_ng.npy - ", '\n');
      NoCharAppend(e.base + "_ng.npy - ", e.message, '\n');
      CountCharAbsent(e.base + "_ng.npy - " + e.message, '\n');
      CountCharLast(e.base + "_ng.npy - " + e.message, '\n');
      CountCharAppend(NotDetectedLedger(init), NotDetectedLine(e), '\n');
    }
  }

  // ---------------------------------------------------------------------------
  // Properties of the whole run

  /** Without input files the run only reports: it creates no directory,
      starts no pool, submits nothing and writes no ledger. */
  lemma EmptyInputOnlyReports(inputDir: string, detectionMode: string, baseConfig: Config, cpuCount: nat,
                              completions: seq<Completion>)
    requires CompletesEachJob(completions, [])
    ensures var effects := DirectorySpec(inputDir, detectionMode, baseConfig, [], cpuCount, completions);
      |effects| == 1 && effects[0].Report?
  {
  }

  /** A run with input files: the three directories, a pool of WorkerCount
      workers, one job per file in glob order, the consumer loop's file
      operations for the completions in order, then the ledgers. */
  lemma {:induction false} DirectoryRunShape(inputDir: string, detectionMode: string, baseConfig: Config, imgFiles: seq<string>,
                          cpuCount: nat, completions: seq<Completion>)
    requires imgFiles != [] && CompletesEachJob(completions, imgFiles)
    ensures var config := baseConfig.(detectionMode := detectionMode);
      var dirs := SetupDirectories(config.outputBaseDir, inputDir);
      var st := ConsumeAll(completions, dirs);
      var effects := DirectorySpec(inputDir, detectionMode, baseConfig, imgFiles, cpuCount, completions);
      var m := 4 + |imgFiles| + |st.effects|;
      && |effects| >= m
      && effects[..3] == SetupEffects(dirs)
      && effects[3] == StartPool(WorkerCount(cpuCount))
      && effects[4..4 + |imgFiles|] == Submissions(imgFiles, dirs, config)
      && effects[4 + |imgFiles|..m] == st.effects
      && effects[m..] == Closing(st, dirs, config)
  {
    var config := baseConfig.(detectionMode := detectionMode);
    var dirs := SetupDirectories(config.outputBaseDir, inputDir);
    var st := ConsumeAll(completions, dirs);
    Layout(SetupEffects(dirs), StartPool(WorkerCount(cpuCount)), Submissions(imgFiles, dirs, config), st.effects,
           Closing(st, dirs, config));
  }

  /** With every submitted future consumed once, the result ledger has one
      row per input file, and its rows name exactly the input files' frames. */
  lemma LedgerCoversInputFiles(imgFiles: seq<string>, completions: seq<Completion>, dirs: OutputDirs)
    requires CompletesEachJob(completions, imgFiles)
    ensures |ConsumeAll(completions, dirs).rows| == |imgFiles|
    ensures RowBases(ConsumeAll(completions, dirs).rows) == FrameNames(imgFiles)
  {
    RowsFollowCompletions(completions, dirs);
    RowsNameFiles(ConsumeAll(completions, dirs).rows, CompletedFiles(completions), imgFiles);
  }

  /** The frame names a ledger's rows carry. */
  function RowBases(rows: seq<Row>): set<string> {
    set k | 0 <= k < |rows| :: rows[k].base
  }

  /** The frame names of some image files. */
  function FrameNames(imgFiles: seq<string>): set<string> {
    set f | f in imgFiles :: BaseName(f)
  }

  /** Rows that name, one for one, a permutation of the input files name
      every input file and nothing else. */
  lemma RowsNameFiles(rows: seq<Row>, files: seq<string>, imgFiles: seq<string>)
    requires |rows| == |files| && multiset(files) == multiset(imgFiles)
    requires forall k :: 0 <= k < |rows| ==> rows[k].base == BaseName(files[k])
    ensures |rows| == |imgFiles|
    ensures RowBases(rows) == FrameNames(imgFiles)
  {
    var names := seq(|rows|, k requires 0 <= k < |rows| => rows[k].base);
    ImagesOfPermutation(names, files, imgFiles, BaseName);
    assert RowBases(rows) == Elements(names);
    assert FrameNames(imgFiles) == Image(imgFiles, BaseName);
  }

  function Elements<U>(xs: seq<U>): set<U> {
    set k | 0 <= k < |xs| :: xs[k]
  }

  function Image<T(==), U>(xs: seq<T>, f: T -> U): set<U> {
    set x | x in xs :: f(x)
  }

  /** Mapping a sequence and a permutation of it by one function yields the
      same set of values. */
  lemma ImagesOfPermutation<T, U>(names: seq<U>, files: seq<T>, imgFiles: seq<T>, f: T -> U)
    requires |names| == |files| && multiset(files) == multiset(imgFiles)
    requires forall k :: 0 <= k < |names| ==> names[k] == f(files[k])
    ensures |names| == |imgFiles|
    ensures Elements(names) == Image(imgFiles, f)
  {
    assert |files| == |multiset(files)| == |multiset(imgFiles)| == |imgFiles|;
    forall b | b in Elements(names) ensures b in Image(imgFiles, f) {
      var k :| 0 <= k < |names| && names[k] == b;
      assert files[k] in multiset(files);
    }
    forall b | b in Image(imgFiles, f) ensures b in Elements(names) {
      var x :| x in imgFiles && f(x) == b;
      assert x in multiset(imgFiles);
      var k :| 0 <= k < |files| && files[k] == x;
      assert names[k] == b;
    }
  }

  lemma Layout<T>(a: seq<T>, x: T, b: seq<T>, c: seq<T>, d: seq<T>)
    ensures var e, i := a + [x] + b + c + d, |a| + 1 + |b|;
      && e[..|a|] == a && e[|a|] == x && e[|a| + 1..i] == b && e[i..i + |c|] == c && e[i + |c|..] == d
  {
    var e, i := a + [x] + b + c + d, |a| + 1 + |b|;
    assert e[..|a|] == a;
    assert e[|a| + 1..i] == b;
    assert e[i..i + |c|] == c;
    assert e[i + |c|..] == d;
  }

  /** What the run writes after the loop: the result ledger, then either the
      not-detected ledger and its message, or, exactly when every frame
      succeeded, the all-detected message. */
  lemma ClosingShape(st: RunState, dirs: OutputDirs, config: Config)
    ensures var steps := Closing(st, dirs, config);
      && steps[0] == WriteText(Join(config.outputBaseDir, RESULT_FILE), ResultLedger(st.rows))
      && (st.notDetected == [] <==> steps[|steps| - 1] == Report(ALL_DETECTED_MESSAGE))
      && (st.notDetected != [] ==>
            steps[1] == WriteText(Join(Dirname(dirs.orignorm), NOT_DETECTED_FILE), NotDetectedLedger(st.notDetected)))
      && (forall k :: 0 <= k < |steps| && steps[k].WriteText? ==> k < 2)
  {
    if st.notDetected != [] {
      var msg := NotDetectedSavedMessage(Join(Dirname(dirs.orignorm), NOT_DETECTED_FILE), |st.notDetected|);
      assert msg[1] != ALL_DETECTED_MESSAGE[1];
    }
  }
}
