/** The main block of the submission normaliser: every manifest found under
    the input folder is normalised and written to the mirrored output folder,
    and the normalised records are gathered per scenario (the folder a
    manifest sits in) into one file per scenario under
    `<base>/<track>_<system>/<split>/`. The file list the folder search
    returns, and each file's parsed lines, are given as inputs; the files
    written are the result. */
module Submission {

  import opened Common
  import opened TextOps
  import opened Normalize

  datatype InputFile = InputFile(path: string, lines: seq<Record>)

  /** One normalised manifest: where it is written, its scenario, its records. */
  datatype Processed = Processed(outputPath: string, scenario: string, items: seq<Record>)

  /** The per-scenario lists in insertion order, as a Python dict keeps them. */
  datatype Groups = Groups(order: seq<string>, lists: map<string, seq<Record>>)

  /** What the run writes: each normalised manifest, then each scenario file. */
  datatype Written = Written(normalized: seq<(string, seq<Record>)>, submitted: seq<(string, seq<Record>)>)

  const DefaultScenarios: seq<string> := ["chime6", "dipco", "mixer6"]

  /** The output folder: every occurrence of the folder name gets the
      `_normalized` suffix. */
  function OutputFolder(originalFolder: string, subJsonFolderName: string): string
  {
    ReplaceAll(originalFolder, subJsonFolderName, subJsonFolderName + "_normalized")
  }

  /** `path.split('/')[-2]`: the folder a manifest sits in. */
  function ScenarioOf(path: string): (r: Result<string>)
    ensures r.Err? <==> |Split(path, '/')| < 2
    ensures r.Ok? ==> '/' !in r.value
  {
    var parts := Split(path, '/');
    SplitPieces(path, '/');
    if |parts| < 2 then Err(IndexError) else Ok(parts[|parts| - 2])
  }

  lemma GroupOfSnoc(done: seq<Processed>, p: Processed)
    ensures GroupOf(done + [p]) == AddFile(GroupOf(done), p.scenario, p.items)
  {
    assert (done + [p])[..|done|] == done;
  }

  lemma NormalizedFilesSnoc(done: seq<Processed>, p: Processed)
    ensures NormalizedFiles(done + [p]) == NormalizedFiles(done) + [(p.outputPath, p.items)]
  {
  }

  /** One iteration of the file loop: the output path, then the scenario
      (which may raise), then `norm_text`. */
  function ProcessFile(originalFolder: string, outputFolder: string, f: InputFile): Result<Processed>
  {
    var outputFp := ReplaceAll(f.path, originalFolder, outputFolder);
    match ScenarioOf(f.path)
    case Err(e) => Err(e)
    case Ok(scenario) =>
      match NormTextSpec(f.lines)
      case Err(e) => Err(e)
      case Ok(items) => Ok(Processed(outputFp, scenario, items))
  }

  function ProcessFiles(originalFolder: string, outputFolder: string, files: seq<InputFile>): Result<seq<Processed>>
    decreases |files|
  {
    if files == [] then Ok([])
    else match ProcessFiles(originalFolder, outputFolder, files[..|files| - 1])
      case Err(e) => Err(e)
      case Ok(done) =>
        match ProcessFile(originalFolder, outputFolder, files[|files| - 1])
        case Err(e) => Err(e)
        case Ok(p) => Ok(done + [p])
  }

  predicate NoDuplicates(xs: seq<string>)
  {
    forall i, j :: 0 <= i < j < |xs| ==> xs[i] != xs[j]
  }

  /** A group table whose order lists each key once, the three default
      scenarios first. */
  ghost predicate WellFormedGroups(g: Groups)
  {
    && |g.order| >= 3 && g.order[..3] == DefaultScenarios
    && NoDuplicates(g.order)
    && forall k :: k in g.lists <==> k in g.order
  }

  /** `extend` an existing scenario's list, or add the scenario at the end. */
  function AddFile(g: Groups, scenario: string, items: seq<Record>): Groups
  {
    if scenario in g.lists then Groups(g.order, g.lists[scenario := g.lists[scenario] + items])
    else Groups(g.order + [scenario], g.lists[scenario := items])
  }

  /** The scenario table after the file loop. */
  function GroupOf(done: seq<Processed>): Groups
    decreases |done|
  {
    if done == [] then
      Groups(DefaultScenarios, map["chime6" := [], "dipco" := [], "mixer6" := []])
    else
      var p := done[|done| - 1];
      AddFile(GroupOf(done[..|done| - 1]), p.scenario, p.items)
  }

  /** The table lists each scenario once, the three defaults first, and has a
      list for exactly the scenarios it lists. */
  lemma {:induction false} GroupOfWellFormed(done: seq<Processed>)
    ensures WellFormedGroups(GroupOf(done))
    decreases |done|
  {
    if done != [] {
      var before := GroupOf(done[..|done| - 1]);
      GroupOfWellFormed(done[..|done| - 1]);
      assert GroupOf(done).order[..3] == before.order[..3];
    }
  }

  /** Reference definition: the records of the manifests of one scenario,
      concatenated in file order. */
  function Gathered(done: seq<Processed>, scenario: string): seq<Record>
    decreases |done|
  {
    if done == [] then []
    else
      var p := done[|done| - 1];
      Gathered(done[..|done| - 1], scenario) + (if p.scenario == scenario then p.items else [])
  }

  predicate Seen(done: seq<Processed>, scenario: string)
  {
    exists i :: 0 <= i < |done| && done[i].scenario == scenario
  }

  lemma {:induction false} GatheredUnseen(done: seq<Processed>, scenario: string)
    requires !Seen(done, scenario)
    ensures Gathered(done, scenario) == []
    decreases |done|
  {
    if done != [] {
      var n := |done| - 1;
      GatheredUnseen(done[..n], scenario);
    }
  }

  /** After the loop the table has a list for each default scenario and each
      scenario some manifest sits in, and no other; each list holds the
      records of that scenario's manifests in file order. */
  lemma {:induction false} GroupOfContents(done: seq<Processed>)
    ensures forall k :: k in GroupOf(done).lists <==> k in DefaultScenarios || Seen(done, k)
    ensures forall k :: k in GroupOf(done).lists ==> GroupOf(done).lists[k] == Gathered(done, k)
    decreases |done|
  {
    if done != [] {
      var n := |done| - 1;
      var init := done[..n];
      var p := done[n];
      GroupOfContents(init);
      forall k ensures k in GroupOf(done).lists <==> k in DefaultScenarios || Seen(done, k) {
        if Seen(done, k) && k != p.scenario {
          var i :| 0 <= i < |done| && done[i].scenario == k;
          assert init[i] == done[i];
        }
        if Seen(init, k) {
          var i :| 0 <= i < n && init[i].scenario == k;
          assert done[i].scenario == k;
        }
      }
      if p.scenario !in GroupOf(init).lists {
        GatheredUnseen(init, p.scenario);
      }
    }
  }

  /** `os.path.join(a, b)`: an absolute `b` replaces `a`; otherwise a '/' is
      put between them unless `a` is empty or already ends with one. */
  function PathJoin(a: string, b: string): string
  {
    if |b| > 0 && b[0] == '/' then b
    else if a == [] || a[|a| - 1] == '/' then a + b
    else a + "/" + b
  }

  /** The scenario file's path, `<base>/<track>_<system>/<split>/<scenario>.json`. */
  function CategoryPath(baseDir: string, track: string, system: string, split: string, scenario: string): string
  {
    PathJoin(PathJoin(PathJoin(baseDir, track + "_" + system), split), scenario + ".json")
  }

  /** `"/".join(path.split('/')[:-3])`: the path without its last three
      components (empty when it has fewer). */
  function BaseDir(submitFolder: string): string
  {
    var parts := Split(submitFolder, '/');
    Join(parts[..if |parts| >= 3 then |parts| - 3 else 0], '/')
  }

  /** The normalised manifests as written, in file order. */
  function NormalizedFiles(done: seq<Processed>): seq<(string, seq<Record>)>
  {
    seq(|done|, i requires 0 <= i < |done| => (done[i].outputPath, done[i].items))
  }

  /** The path `<submit base>/<track>_<system>/<split>/<scenario>.json`, where
      the submit base is the input folder with the folder name suffixed by
      `_norm_for_submit` and its last three components dropped. */
  function SubmitPath(originalFolder: string, subJsonFolderName: string, track: string, system: string, split: string, scenario: string): string
  {
    var submitFolder := ReplaceAll(originalFolder, subJsonFolderName, subJsonFolderName + "_norm_for_submit");
    CategoryPath(BaseDir(submitFolder), track, system, split, scenario)
  }

  /** One scenario file per entry of the table, in the table's order. */
  function ScenarioFiles(originalFolder: string, subJsonFolderName: string, track: string, system: string, split: string, g: Groups): seq<(string, seq<Record>)>
    requires forall i :: 0 <= i < |g.order| ==> g.order[i] in g.lists
  {
    seq(|g.order|, i requires 0 <= i < |g.order| =>
      (SubmitPath(originalFolder, subJsonFolderName, track, system, split, g.order[i]), g.lists[g.order[i]]))
  }

  function Submit(inputDir: string, subJsonFolderName: string, files: seq<InputFile>): Result<Written>
  {
    var outputFolder := OutputFolder(inputDir, subJsonFolderName);
    match ProcessFiles(inputDir, outputFolder, files)
    case Err(e) => Err(e)
    case Ok(done) =>
      var parts := Split(inputDir, '/');
      if |parts| < 3 then Err(IndexError)
      else
        var g := GroupOf(done);
        GroupOfWellFormed(done);
        Ok(Written(NormalizedFiles(done),
          ScenarioFiles(inputDir, subJsonFolderName, parts[|parts| - 3], parts[|parts| - 2], parts[|parts| - 1], g)))
  }

  /** The main block, with the folder search's result as `files`. */
  method SubmitNormalized(inputDir: string, subJsonFolderName: string, files: seq<InputFile>) returns (r: Result<Written>)
    ensures r == Submit(inputDir, subJsonFolderName, files)
  {
    var originalFolder := inputDir;
    var outputFolder := OutputFolder(originalFolder, subJsonFolderName);
    var processed := NormalizeFiles(originalFolder, outputFolder, files);
    if processed.Err? {
      return Err(processed.error);
    }
    var (normalized, scenarioDict) := processed.value;
    var parts := Split(originalFolder, '/');
    if |parts| < 3 {
      return Err(IndexError);
    }
    var track := parts[|parts| - 3];
    var system := parts[|parts| - 2];
    var split := parts[|parts| - 1];
    GroupOfWellFormed(ProcessFiles(originalFolder, outputFolder, files).value);
    var submitted := WriteScenarioFiles(originalFolder, subJsonFolderName, track, system, split, scenarioDict);
    return Ok(Written(normalized, submitted));
  }

  /** The loop over the manifests: normalise each one and add its records to
      its scenario's list. */
  method NormalizeFiles(originalFolder: string, outputFolder: string, files: seq<InputFile>)
    returns (r: Result<(seq<(string, seq<Record>)>, Groups)>)
    ensures var spec := ProcessFiles(originalFolder, outputFolder, files);
      r == (if spec.Err? then Err(spec.error) else Ok((NormalizedFiles(spec.value), GroupOf(spec.value))))
  {
    var scenarioDict := Groups(DefaultScenarios, map["chime6" := [], "dipco" := [], "mixer6" := []]);
    var normalized: seq<(string, seq<Record>)> := [];
    ghost var done: seq<Processed> := [];
    var i := 0;
    while i < |files|
      invariant 0 <= i <= |files|
      invariant ProcessFiles(originalFolder, outputFolder, files[..i]) == Ok(done)
      invariant scenarioDict == GroupOf(done)
      invariant normalized == NormalizedFiles(done)
    {
      assert files[..i + 1][..i] == files[..i];
      var processed := NormalizeFile(originalFolder, outputFolder, files[i]);
      if processed.Err? {
        ProcessFilesErrSticks(originalFolder, outputFolder, files, i + 1);
        return Err(processed.error);
      }
      var p := processed.value;
      GroupOfSnoc(done, p);
      NormalizedFilesSnoc(done, p);
      normalized := normalized + [(p.outputPath, p.items)];
      done := done + [p];
      scenarioDict := AddFile(scenarioDict, p.scenario, p.items);
      i := i + 1;
    }
    assert files[..i] == files;
    return Ok((normalized, scenarioDict));
  }

  /** One iteration of the file loop: the output path, the scenario, then
      `norm_text` on the manifest. */
  method NormalizeFile(originalFolder: string, outputFolder: string, f: InputFile) returns (r: Result<Processed>)
    ensures r == ProcessFile(originalFolder, outputFolder, f)
  {
    var outputFp := ReplaceAll(f.path, originalFolder, outputFolder);
    var scenario := ScenarioOf(f.path);
    if scenario.Err? {
      return Err(scenario.error);
    }
    var listOfDicts := NormText(f.lines);
    if listOfDicts.Err? {
      return Err(listOfDicts.error);
    }
    return Ok(Processed(outputFp, scenario.value, listOfDicts.value));
  }

  /** The loop over the scenario table that writes one file per scenario. */
  method WriteScenarioFiles(originalFolder: string, subJsonFolderName: string, track: string, system: string, split: string, g: Groups)
    returns (submitted: seq<(string, seq<Record>)>)
    requires forall i :: 0 <= i < |g.order| ==> g.order[i] in g.lists
    ensures submitted == ScenarioFiles(originalFolder, subJsonFolderName, track, system, split, g)
  {
    submitted := [];
    var j := 0;
    while j < |g.order|
      invariant 0 <= j <= |g.order|
      invariant |submitted| == j
      invariant forall k :: 0 <= k < j ==>
        submitted[k] == (SubmitPath(originalFolder, subJsonFolderName, track, system, split, g.order[k]), g.lists[g.order[k]])
    {
      var scenarioName := g.order[j];
      var submitFolder := ReplaceAll(originalFolder, subJsonFolderName, subJsonFolderName + "_norm_for_submit");
      var baseDir := BaseDir(submitFolder);
      var submitCategoryFullpath := PathJoin(PathJoin(PathJoin(baseDir, track + "_" + system), split), scenarioName + ".json");
      submitted := submitted + [(submitCategoryFullpath, g.lists[scenarioName])];
      j := j + 1;
    }
  }

  lemma {:induction false} ProcessFilesErrSticks(originalFolder: string, outputFolder: string, files: seq<InputFile>, n: nat)
    requires n <= |files| && ProcessFiles(originalFolder, outputFolder, files[..n]).Err?
    ensures ProcessFiles(originalFolder, outputFolder, files) == ProcessFiles(originalFolder, outputFolder, files[..n])
    decreases |files| - n
  {
    if n == |files| {
      assert files[..n] == files;
    } else {
      assert files[..n + 1][..n] == files[..n];
      ProcessFilesErrSticks(originalFolder, outputFolder, files, n + 1);
    }
  }

  // ---------------------------------------------------------------- path properties

  /** A manifest at `<dir>/<scenario>/<file>` belongs to `<scenario>`. */
  lemma ScenarioOfPath(dir: string, scenario: string, file: string)
    requires '/' !in scenario && '/' !in file
    ensures ScenarioOf(dir + "/" + (scenario + "/" + file)) == Ok(scenario)
  {
    SplitConcat(dir, scenario + "/" + file, '/');
    SplitConcat(scenario, file, '/');
    SplitNoSep(scenario, '/');
    SplitNoSep(file, '/');
  }

  lemma SplitTwo(a: string, b: string)
    requires '/' !in a && '/' !in b
    ensures Split(a + "/" + b, '/') == [a, b]
  {
    SplitAfterPiece(a, b, '/');
    SplitNoSep(b, '/');
  }

  lemma LastThree(d: seq<string>, x: string, y: string, z: string)
    ensures var p := d + ([x] + [y, z]);
      |p| >= 3 && p[|p| - 3] == x && p[|p| - 2] == y && p[|p| - 1] == z
  {
  }

  /** The track, system and split are the last three components of the input
      folder. */
  lemma TrackSystemSplit(dir: string, track: string, system: string, split: string)
    requires '/' !in track && '/' !in system && '/' !in split
    ensures var parts := Split(dir + "/" + (track + "/" + (system + "/" + split)), '/');
      |parts| >= 3 && parts[|parts| - 3] == track && parts[|parts| - 2] == system && parts[|parts| - 1] == split
  {
    var s3 := system + "/" + split;
    SplitTwo(system, split);
    SplitAfterPiece(track, s3, '/');
    SplitConcat(dir, track + "/" + s3, '/');
    LastThree(Split(dir, '/'), track, system, split);
  }

  /** Appending the same text to two different texts keeps them different. */
  lemma AppendInjective(a: string, b: string, x: string)
    ensures a + x == b + x ==> a == b
  {
    if a + x == b + x {
      assert |a| == |b|;
      assert a == (a + x)[..|a|];
      assert b == (b + x)[..|b|];
    }
  }

  /** Two different scenarios are written to two different files. */
  lemma {:induction false} CategoryPathsDistinct(baseDir: string, track: string, system: string, split: string, a: string, b: string)
    requires '/' !in a && '/' !in b && a != b
    ensures CategoryPath(baseDir, track, system, split, a) != CategoryPath(baseDir, track, system, split, b)
  {
    var dir := PathJoin(PathJoin(baseDir, track + "_" + system), split);
    var prefix := if dir == [] || dir[|dir| - 1] == '/' then dir else dir + "/";
    assert (a + ".json")[0] != '/' by { if |a| > 0 { assert (a + ".json")[0] == a[0]; } }
    assert (b + ".json")[0] != '/' by { if |b| > 0 { assert (b + ".json")[0] == b[0]; } }
    var pa := prefix + (a + ".json");
    var pb := prefix + (b + ".json");
    assert CategoryPath(baseDir, track, system, split, a) == pa;
    assert CategoryPath(baseDir, track, system, split, b) == pb;
    assert pa[|prefix|..] == a + ".json";
    assert pb[|prefix|..] == b + ".json";
    AppendInjective(a, b, ".json");
  }

  /** Scenario names hold no '/'. */
  lemma GroupScenariosHaveNoSlash(done: seq<Processed>, k: string)
    requires forall i :: 0 <= i < |done| ==> '/' !in done[i].scenario
    requires k in DefaultScenarios || Seen(done, k)
    ensures '/' !in k
  {
    if !Seen(done, k) {
      assert k == "chime6" || k == "dipco" || k == "mixer6";
    }
  }

  /** Every submission has one file per scenario of the table, the three
      defaults first (written even when no manifest belongs to them) and each
      scenario some manifest sits in among them; the file written for a
      scenario holds that scenario's records in file order, and there is one
      normalised manifest per input file. */
  lemma SubmittedPerScenario(inputDir: string, subJsonFolderName: string, files: seq<InputFile>)
    ensures var r := Submit(inputDir, subJsonFolderName, files);
      r.Ok? ==>
        var done := ProcessFiles(inputDir, OutputFolder(inputDir, subJsonFolderName), files).value;
        var order := GroupOf(done).order;
        var sub := r.value.submitted;
        && |r.value.normalized| == |files|
        && |sub| == |order| >= 3 && order[..3] == DefaultScenarios
        && (forall k :: Seen(done, k) ==> k in order)
        && (forall i :: 0 <= i < |sub| ==> sub[i].1 == Gathered(done, order[i]))
  {
    var r := Submit(inputDir, subJsonFolderName, files);
    if r.Ok? {
      var outputFolder := OutputFolder(inputDir, subJsonFolderName);
      var done := ProcessFiles(inputDir, outputFolder, files).value;
      ProcessFilesLength(inputDir, outputFolder, files);
      GroupOfContents(done);
      GroupOfWellFormed(done);
    }
  }

  /** No two scenario files of a submission share a path. */
  lemma SubmittedPathsDistinct(inputDir: string, subJsonFolderName: string, files: seq<InputFile>)
    ensures var r := Submit(inputDir, subJsonFolderName, files);
      r.Ok? ==> forall i, j :: 0 <= i < j < |r.value.submitted| ==> r.value.submitted[i].0 != r.value.submitted[j].0
  {
    var r := Submit(inputDir, subJsonFolderName, files);
    if r.Ok? {
      var outputFolder := OutputFolder(inputDir, subJsonFolderName);
      var done := ProcessFiles(inputDir, outputFolder, files).value;
      ProcessFilesLength(inputDir, outputFolder, files);
      GroupOfContents(done);
      GroupOfWellFormed(done);
      var g := GroupOf(done);
      var parts := Split(inputDir, '/');
      var baseDir := BaseDir(ReplaceAll(inputDir, subJsonFolderName, subJsonFolderName + "_norm_for_submit"));
      var sub := r.value.submitted;
      forall i, j | 0 <= i < j < |sub| ensures sub[i].0 != sub[j].0 {
        GroupScenariosHaveNoSlash(done, g.order[i]);
        GroupScenariosHaveNoSlash(done, g.order[j]);
        CategoryPathsDistinct(baseDir, parts[|parts| - 3], parts[|parts| - 2], parts[|parts| - 1], g.order[i], g.order[j]);
      }
    }
  }

  lemma {:induction false} ProcessFilesLength(originalFolder: string, outputFolder: string, files: seq<InputFile>)
    requires ProcessFiles(originalFolder, outputFolder, files).Ok?
    ensures |ProcessFiles(originalFolder, outputFolder, files).value| == |files|
    ensures forall i :: 0 <= i < |files| ==> '/' !in ProcessFiles(originalFolder, outputFolder, files).value[i].scenario
    decreases |files|
  {
    if files != [] {
      var n := |files| - 1;
      ProcessFilesLength(originalFolder, outputFolder, files[..n]);
    }
  }
}
