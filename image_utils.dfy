/** Output layout of one input directory and the names under which each frame's
    artifacts are saved (image_utils.py: setup_directories, save_processed_files). */
module ImageUtils {
  import opened Text
  import opened Paths
  import opened DataModels

  const FAILURE_SUFFIX: string := "_ng"

  /** The suffix every artifact of a frame carries: none when the frame is
      detected, "_ng" when it is not. */
  function Suffix(isDetected: bool): (s: string)
    ensures s == [] <==> isDetected
    ensures !isDetected ==> s == FAILURE_SUFFIX
  {
    if isDetected then "" else FAILURE_SUFFIX
  }

  /** `os.path.basename(img_path).replace('.npy', '')` */
  function BaseName(imgPath: string): (b: string)
    ensures NoChar(b, '/')
    ensures |b| <= |Basename(imgPath)|
  {
    DropNpyKeepsOut(Basename(imgPath), '/');
    DropNpy(Basename(imgPath))
  }

  /** The frame name of `dir/b.npy`, for a plain b, is b. */
  lemma BaseNameOfNpyFile(dir: string, b: string)
    requires NoChar(b, '/') && !ContainsNpy(b)
    ensures BaseName(Join(dir, b + NPY)) == b
  {
    assert NoChar(b + NPY, '/');
    BasenameOfJoin(dir, b + NPY);
    DropNpyAcrossSeparator(b, "");
    assert b + NPY + "" == b + NPY;
    DropNpyKeepsClean(b);
  }

  /** Every ".npy" in the file name is removed, not only the extension:
      `dir/b.npy` + c names the frame b + c with their own ".npy"s removed too. */
  lemma BaseNameDropsEveryNpy(dir: string, b: string, c: string)
    requires NoChar(b, '/') && NoChar(c, '/')
    ensures BaseName(Join(dir, b + NPY + c)) == DropNpy(b) + DropNpy(c)
  {
    assert NoChar(b + NPY + c, '/') by {
      forall k | 0 <= k < |b + NPY + c| ensures (b + NPY + c)[k] != '/' {
        if k >= |b| + 4 {
          assert (b + NPY + c)[k] == c[k - |b| - 4];
        }
      }
    }
    BasenameOfJoin(dir, b + NPY + c);
    DropNpyAcrossSeparator(b, c);
  }

  // ---------------------------------------------------------------------------
  // setup_directories

  /** (orignorm_dir, processed_dir, landmarks_dir) */
  datatype OutputDirs = OutputDirs(orignorm: string, processed: string, landmarks: string)

  /** The three output directories of `inputDir` under `outputBase`. */
  function SetupDirectories(outputBase: string, inputDir: string): OutputDirs {
    var dirName := Basename(inputDir);
    OutputDirs(Join(Join(outputBase, dirName), "orignorm"),
               Join(Join(outputBase, dirName), "processed"),
               Join(Join(outputBase, dirName), "landmarks"))
  }

  /** The `os.makedirs` calls setup_directories makes, in order. */
  function SetupEffects(d: OutputDirs): (steps: seq<Effect>)
    ensures |steps| == 3
    ensures forall k :: 0 <= k < 3 ==> steps[k].MakeDirs?
  {
    [MakeDirs(d.orignorm), MakeDirs(d.processed), MakeDirs(d.landmarks)]
  }

  /** The three directories are siblings: each sits directly in
      `outputBase/basename(inputDir)`, which itself sits directly in outputBase. */
  lemma SetupDirectoriesAreSiblings(outputBase: string, inputDir: string)
    requires outputBase != [] && outputBase[|outputBase| - 1] != '/'
    requires Basename(inputDir) != []
    ensures var parent := Join(outputBase, Basename(inputDir));
      var d := SetupDirectories(outputBase, inputDir);
      && Dirname(parent) == outputBase && Basename(parent) == Basename(inputDir)
      && Dirname(d.orignorm) == parent && Basename(d.orignorm) == "orignorm"
      && Dirname(d.processed) == parent && Basename(d.processed) == "processed"
      && Dirname(d.landmarks) == parent && Basename(d.landmarks) == "landmarks"
  {
    var name := Basename(inputDir);
    var parent := Join(outputBase, name);
    DirnameOfJoin(outputBase, name);
    BasenameOfJoin(outputBase, name);
    assert parent == outputBase + "/" + name;
    assert parent[|parent| - 1] == name[|name| - 1];
    NamedDirectory(parent, "orignorm");
    NamedDirectory(parent, "processed");
    NamedDirectory(parent, "landmarks");
  }

  /** setup_directories creates exactly its three sibling directories, in the
      order orignorm, processed, landmarks. */
  lemma SetupCreatesSiblings(outputBase: string, inputDir: string)
    requires outputBase != [] && outputBase[|outputBase| - 1] != '/'
    requires Basename(inputDir) != []
    ensures var parent := Join(outputBase, Basename(inputDir));
      var steps := SetupEffects(SetupDirectories(outputBase, inputDir));
      && steps[0].path == SetupDirectories(outputBase, inputDir).orignorm
      && steps[1].path == SetupDirectories(outputBase, inputDir).processed
      && steps[2].path == SetupDirectories(outputBase, inputDir).landmarks
      && Dirname(steps[0].path) == parent && Basename(steps[0].path) == "orignorm"
      && Dirname(steps[1].path) == parent && Basename(steps[1].path) == "processed"
      && Dirname(steps[2].path) == parent && Basename(steps[2].path) == "landmarks"
  {
    SetupDirectoriesAreSiblings(outputBase, inputDir);
  }

  lemma NamedDirectory(parent: string, leaf: string)
    requires parent != [] && parent[|parent| - 1] != '/'
    requires leaf == "orignorm" || leaf == "processed" || leaf == "landmarks"
    ensures Dirname(Join(parent, leaf)) == parent && Basename(Join(parent, leaf)) == leaf
  {
    assert NoChar(leaf, '/');
    DirnameOfJoin(parent, leaf);
    BasenameOfJoin(parent, leaf);
  }

  /** An input directory given with a trailing slash has an empty basename, so
      the three directories land directly in outputBase. */
  lemma SetupDirectoriesTrailingSlash(outputBase: string, inputDir: string)
    requires inputDir != [] && inputDir[|inputDir| - 1] == '/'
    ensures SetupDirectories(outputBase, inputDir)
         == OutputDirs(Join(outputBase, "orignorm"), Join(outputBase, "processed"), Join(outputBase, "landmarks"))
  {
    assert Basename(inputDir) == [];
    JoinThroughEmpty(outputBase, "orignorm");
    JoinThroughEmpty(outputBase, "processed");
    JoinThroughEmpty(outputBase, "landmarks");
  }

  lemma JoinThroughEmpty(a: string, leaf: string)
    requires leaf != [] && leaf[0] != '/'
    ensures Join(Join(a, ""), leaf) == Join(a, leaf)
  {
    if a != [] && a[|a| - 1] != '/' {
      var j := Join(a, "");
      assert j == a + "/";
      assert j[|j| - 1] == '/';
    }
  }

  /** `os.path.join(os.path.dirname(orignorm_dir), 'comparisons')`, where both
      the processor and the batch orchestrator put comparison images. */
  function ComparisonDir(orignormDir: string): (c: string)
    ensures EndsWith(c, "comparisons")
  {
    Join(Dirname(orignormDir), "comparisons")
  }

  /** The comparison directory is a fourth sibling of the three output directories. */
  lemma ComparisonDirIsSibling(outputBase: string, inputDir: string)
    requires outputBase != [] && outputBase[|outputBase| - 1] != '/'
    requires Basename(inputDir) != []
    ensures ComparisonDir(SetupDirectories(outputBase, inputDir).orignorm)
         == Join(Join(outputBase, Basename(inputDir)), "comparisons")
  {
    SetupDirectoriesAreSiblings(outputBase, inputDir);
  }

  // ---------------------------------------------------------------------------
  // save_processed_files

  /** `{base}_{kind}{suffix}{ext}` */
  function ArtifactName(base: string, kind: string, suffix: string, ext: string): string {
    base + "_" + kind + suffix + ext
  }

  /** `os.path.join(dir, f'{base_name}_{kind}{suffix}{ext}')` */
  function ArtifactPath(dir: string, imgPath: string, kind: string, isDetected: bool, ext: string): string
  {
    Join(dir, ArtifactName(BaseName(imgPath), kind, Suffix(isDetected), ext))
  }

  /** Where the four artifacts of a frame are saved. */
  datatype Artifacts = Artifacts(orignorm: string, processed: string, landmarks: string, comparison: string)

  function ArtifactPaths(imgPath: string, d: OutputDirs, comparisonDir: string, isDetected: bool): (a: Artifacts)
    ensures a.orignorm == ArtifactPath(d.orignorm, imgPath, "orignorm", isDetected, ".npy")
    ensures a.processed == ArtifactPath(d.processed, imgPath, "processed", isDetected, ".npy")
    ensures a.landmarks == ArtifactPath(d.landmarks, imgPath, "landmarks", isDetected, ".npy")
    ensures a.comparison == ArtifactPath(comparisonDir, imgPath, "comparison", isDetected, ".png")
  {
    Artifacts(ArtifactPath(d.orignorm, imgPath, "orignorm", isDetected, ".npy"),
              ArtifactPath(d.processed, imgPath, "processed", isDetected, ".npy"),
              ArtifactPath(d.landmarks, imgPath, "landmarks", isDetected, ".npy"),
              ArtifactPath(comparisonDir, imgPath, "comparison", isDetected, ".png"))
  }

  /** The writes save_processed_files performs, in order. */
  function SaveEffects(imgPath: string, origNorm: Image, processed: Image, landmarks: Landmarks,
                       d: OutputDirs, comparisonDir: string, isDetected: bool): (steps: seq<Effect>)
    ensures |steps| == 4
    ensures steps[0] == SaveImage(ArtifactPaths(imgPath, d, comparisonDir, isDetected).orignorm, origNorm)
    ensures steps[1] == SaveImage(ArtifactPaths(imgPath, d, comparisonDir, isDetected).processed, processed)
    ensures steps[2] == SaveLandmarks(ArtifactPaths(imgPath, d, comparisonDir, isDetected).landmarks, landmarks)
    ensures steps[3] == RenderComparison(ArtifactPaths(imgPath, d, comparisonDir, isDetected).comparison, landmarks)
  {
    var a := ArtifactPaths(imgPath, d, comparisonDir, isDetected);
    [SaveImage(a.orignorm, origNorm), SaveImage(a.processed, processed),
     SaveLandmarks(a.landmarks, landmarks), RenderComparison(a.comparison, landmarks)]
  }

  /** A name ends in "_ng.npy" exactly when it was built with the failure suffix. */
  lemma {:induction false} NgNameIffFailure(p: string, kind: string, isDetected: bool)
    requires kind == "orignorm" || kind == "processed" || kind == "landmarks"
    requires EndsWith(p, kind + Suffix(isDetected) + ".npy")
    ensures EndsWith(p, "_ng.npy") <==> !isDetected
  {
    var tail := kind + Suffix(isDetected) + ".npy";
    assert p[|p| - 7..] == tail[|tail| - 7..];
    if isDetected {
      assert tail == kind + ".npy";
      assert p[|p| - 7] == kind[|kind| - 3] != '_';
    } else {
      assert tail[|tail| - 7..] == "_ng.npy";
    }
  }

  /** Each artifact sits directly in its own directory under a name built from
      the frame name, its kind and the suffix. */
  lemma ArtifactLayout(dir: string, imgPath: string, kind: string, isDetected: bool, ext: string)
    requires dir != [] && dir[|dir| - 1] != '/'
    requires kind in {"orignorm", "processed", "landmarks", "comparison"} && ext in {".npy", ".png"}
    ensures Dirname(ArtifactPath(dir, imgPath, kind, isDetected, ext)) == dir
    ensures Basename(ArtifactPath(dir, imgPath, kind, isDetected, ext))
         == ArtifactName(BaseName(imgPath), kind, Suffix(isDetected), ext)
  {
    PlainParts();
    ArtifactInDir(dir, BaseName(imgPath), kind, Suffix(isDetected), ext);
  }

  /** save_processed_files writes the normalised image, the detection image,
      the landmarks and the comparison, each directly in its own directory
      under the frame's artifact name. */
  lemma SavedWhereNamed(imgPath: string, origNorm: Image, processed: Image, landmarks: Landmarks,
                        d: OutputDirs, comparisonDir: string, isDetected: bool)
    requires d.orignorm != [] && d.orignorm[|d.orignorm| - 1] != '/'
    requires d.processed != [] && d.processed[|d.processed| - 1] != '/'
    requires d.landmarks != [] && d.landmarks[|d.landmarks| - 1] != '/'
    requires comparisonDir != [] && comparisonDir[|comparisonDir| - 1] != '/'
    ensures var steps := SaveEffects(imgPath, origNorm, processed, landmarks, d, comparisonDir, isDetected);
      var base, suffix := BaseName(imgPath), Suffix(isDetected);
      && steps[0].image == origNorm && steps[1].image == processed
      && steps[2].landmarks == landmarks && steps[3].landmarks == landmarks
      && Dirname(steps[0].path) == d.orignorm && Basename(steps[0].path) == ArtifactName(base, "orignorm", suffix, ".npy")
      && Dirname(steps[1].path) == d.processed && Basename(steps[1].path) == ArtifactName(base, "processed", suffix, ".npy")
      && Dirname(steps[2].path) == d.landmarks && Basename(steps[2].path) == ArtifactName(base, "landmarks", suffix, ".npy")
      && Dirname(steps[3].path) == comparisonDir && Basename(steps[3].path) == ArtifactName(base, "comparison", suffix, ".png")
  {
    ArtifactLayout(d.orignorm, imgPath, "orignorm", isDetected, ".npy");
    ArtifactLayout(d.processed, imgPath, "processed", isDetected, ".npy");
    ArtifactLayout(d.landmarks, imgPath, "landmarks", isDetected, ".npy");
    ArtifactLayout(comparisonDir, imgPath, "comparison", isDetected, ".png");
  }

  lemma PlainParts()
    ensures NoChar("orignorm", '/') && NoChar("processed", '/') && NoChar("landmarks", '/')
    ensures NoChar("comparison", '/') && NoChar(".npy", '/') && NoChar(".png", '/')
    ensures NoChar(Suffix(true), '/') && NoChar(Suffix(false), '/')
  {
  }

  lemma ArtifactInDir(dir: string, base: string, kind: string, suffix: string, ext: string)
    requires dir != [] && dir[|dir| - 1] != '/'
    requires NoChar(base, '/') && NoChar(kind, '/') && NoChar(suffix, '/') && NoChar(ext, '/')
    ensures Dirname(Join(dir, ArtifactName(base, kind, suffix, ext))) == dir
    ensures Basename(Join(dir, ArtifactName(base, kind, suffix, ext))) == ArtifactName(base, kind, suffix, ext)
  {
    PlainArtifactName(base, kind, suffix, ext);
    DirnameOfJoin(dir, ArtifactName(base, kind, suffix, ext));
    BasenameOfJoin(dir, ArtifactName(base, kind, suffix, ext));
  }

  lemma PlainArtifactName(base: string, kind: string, suffix: string, ext: string)
    requires NoChar(base, '/') && NoChar(kind, '/') && NoChar(suffix, '/') && NoChar(ext, '/')
    ensures NoChar(ArtifactName(base, kind, suffix, ext), '/')
  {
    var n := ArtifactName(base, kind, suffix, ext);
    forall k | 0 <= k < |n| ensures n[k] != '/' {
      if k < |base| {
        assert n[k] == base[k];
      } else if k == |base| {
      } else if k < |base| + 1 + |kind| {
        assert n[k] == kind[k - |base| - 1];
      } else if k < |base| + 1 + |kind| + |suffix| {
        assert n[k] == suffix[k - |base| - 1 - |kind|];
      } else {
        assert n[k] == ext[k - |base| - 1 - |kind| - |suffix|];
      }
    }
  }

  /** An array artifact's name ends in "_ng.npy" exactly when the frame was
      not detected. */
  lemma ArtifactMarksFailure(dir: string, imgPath: string, kind: string, isDetected: bool)
    requires kind in {"orignorm", "processed", "landmarks"}
    ensures EndsWith(ArtifactPath(dir, imgPath, kind, isDetected, ".npy"), "_ng.npy") <==> !isDetected
  {
    EndsWithName(dir, BaseName(imgPath), kind, Suffix(isDetected));
    NgNameIffFailure(ArtifactPath(dir, imgPath, kind, isDetected, ".npy"), kind, isDetected);
  }

  lemma EndsWithName(dir: string, base: string, kind: string, suffix: string)
    ensures EndsWith(Join(dir, ArtifactName(base, kind, suffix, ".npy")), kind + suffix + ".npy")
  {
    var n := ArtifactName(base, kind, suffix, ".npy");
    var p := Join(dir, n);
    var t := kind + suffix + ".npy";
    assert n == base + "_" + t;
    assert p[|p| - |n|..] == n;
    assert n[|n| - |t|..] == t;
    assert p[|p| - |t|..] == n[|n| - |t|..];
  }
}
