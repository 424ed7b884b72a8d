/** `ExecutionHelper.run`: the driver behind the graphical front end. For every
    method and every data set it loads `folder/data.arff` when that file
    exists (reading the total feature count off the folder's last path
    segment) and the ham and spam raw files otherwise (balanced and merged),
    applies the filters that are switched on, saves the filtered set to
    `folder/data.arff` when asked (so that later configurations on the same
    folder take the `.arff` branch), and makes the runs with the
    generator's update count as the seed, the classifier always a fresh copy
    of the method's base classifier, and one model file per configuration.
    Any exception ends the whole sweep. */
module Execution {
  import opened JavaText
  import opened WekaData
  import opened RunLoop
  import opened InputOutput
  import opened Sweep
  import opened DataSetFolders

  /** The static settings the front end sets before starting the thread. */
  datatype Settings = Settings(
    runs: int,
    skipTrain: bool,
    skipTest: bool,
    includeEmpty: bool,
    removeOutliers: bool,
    shrinkFeatures: bool,
    balanceClasses: bool,
    saveArff: bool,
    saveSets: bool,
    saveModel: bool)

  /** The collaborators: `File.separator`, whether a file exists before the
      sweep, `loadInstancesFromArffFile` on such a file and on a file the
      sweep wrote from a given data set, whether `saveInstancesToArffFile`
      on a path succeeds, `loadInstancesFromRawFile`, `matchCardinalities`
      (which rebalances both sets), `mergeInstances`, the filters, Weka's
      shuffle, the three-argument `buildClassifierFilename`, and the outlier
      detector's answers in each configuration. A loader or the merge
      answers `None` when it throws. */
  datatype Environment = Environment(
    separator: char,
    fileExists: string -> bool,
    loadArff: string -> Option<ClassifiedInstances>,
    reread: ClassifiedInstances -> Option<ClassifiedInstances>,
    writeArff: string -> bool,
    loadRaw: (string, Label) -> Option<ClassifiedInstances>,
    matchCardinalities: (ClassifiedInstances, ClassifiedInstances) -> (ClassifiedInstances, ClassifiedInstances),
    merge: (ClassifiedInstances, ClassifiedInstances) -> Option<ClassifiedInstances>,
    attributeFilter: ClassifiedInstances -> ClassifiedInstances,
    instanceFilter: ClassifiedInstances -> ClassifiedInstances,
    shuffle: (int, seq<Instance>) -> seq<Instance>,
    modelFile: (string, MethodConfiguration, real) -> string,
    detections: Configuration -> seq<nat>)

  /** A loaded data set and its total feature count. */
  datatype Loaded = Loaded(dataSet: ClassifiedInstances, totalFeatures: int)

  function RunPolicy(s: Settings, m: MethodConfiguration): Policy
  {
    Policy(s.runs, m.splitPercent, s.skipTrain, s.skipTest, s.includeEmpty, s.removeOutliers, false, s.saveModel, UpdateCount)
  }

  /** The model file does not depend on the run: every run of a configuration
      saves to `buildClassifierFilename(folder, method, splitPercent)`. */
  function RunOracles(env: Environment, c: Configuration): Oracles
  {
    Oracles(env.shuffle, seed => ModelFile(env, c), env.detections(c))
  }

  function ModelFile(env: Environment, c: Configuration): string
  {
    env.modelFile(c.metadata.folder, c.methodConfig, c.methodConfig.splitPercent)
  }

  // ---------------------------------------------------------------------------
  // The total feature count of a folder
  // ---------------------------------------------------------------------------

  /** `Integer.valueOf(folder.substring(folder.lastIndexOf(sep) + 1))`, with
      `sep` the backslash when the folder holds one and the slash otherwise;
      `None` when the segment is not a 32-bit decimal. */
  function TotalFeaturesFromFolder(folder: string): Option<int>
  {
    var sep := if '\\' in folder then '\\' else '/';
    ParseInt(folder[LastIndexOf(folder, sep) + 1..])
  }

  /** A folder that ends in `sep` and a 32-bit decimal yields that number, when
      `sep` is the backslash, or the slash with no backslash before it. */
  lemma TotalFeaturesOfFolder(prefix: string, sep: char, amount: int)
    requires IsInt32(amount)
    requires sep == '\\' || (sep == '/' && '\\' !in prefix)
    ensures TotalFeaturesFromFolder(prefix + [sep] + IntToString(amount)) == Some(amount)
  {
    var digits := IntToString(amount);
    var folder := prefix + [sep] + digits;
    IntToStringChars(amount, '\\');
    IntToStringChars(amount, '/');
    assert folder[|prefix|] == sep;
    assert forall k :: |prefix| < k < |folder| ==> folder[k] == digits[k - |prefix| - 1];
    var chosen := if '\\' in folder then '\\' else '/';
    assert chosen == sep by {
      if sep == '/' {
        assert forall k :: 0 <= k < |folder| ==> folder[k] != '\\' by {
          forall k | 0 <= k < |folder| ensures folder[k] != '\\' {
            if k < |prefix| {
              assert folder[k] == prefix[k];
            } else if k > |prefix| {
              assert folder[k] in digits;
            }
          }
        }
      }
    }
    assert forall k :: |prefix| < k < |folder| ==> folder[k] != sep;
    var i := LastIndexOf(folder, sep);
    assert i == |prefix|;
    assert folder[i + 1..] == digits;
    ParseIntToString(amount);
  }

  /** A `DataSetHelper` folder path yields its feature amount. */
  lemma TotalFeaturesOfFolderPath(base: string, sep: char, dataSet: string, statMethod: string, amount: int)
    requires IsInt32(amount)
    requires sep == '\\' || (sep == '/' && '\\' !in base && '\\' !in dataSet && '\\' !in statMethod)
    ensures TotalFeaturesFromFolder(FolderPath(base, sep, dataSet, statMethod, amount)) == Some(amount)
  {
    var prefix := base + [sep] + dataSet + [sep] + statMethod;
    assert FolderPath(base, sep, dataSet, statMethod, amount) == prefix + [sep] + IntToString(amount);
    TotalFeaturesOfFolder(prefix, sep, amount);
  }

  /** Every folder `DataSetHelper.getFolders` lists yields its feature amount. */
  lemma TotalFeaturesOfListedFolder(base: string, sep: char, i: int)
    requires 0 <= i < 84
    requires sep == '\\' || (sep == '/' && '\\' !in base)
    ensures TotalFeaturesFromFolder(Folders(base, sep)[i]) == Some(FeatureAmounts[i % 7])
  {
    NamesWithoutBackslash();
    TotalFeaturesOfFolderPath(base, sep, DataSets[i / 21], StatMethods[i / 7 % 3], FeatureAmounts[i % 7]);
  }

  lemma NamesWithoutBackslash()
    ensures forall k :: 0 <= k < |DataSets| ==> '\\' !in DataSets[k]
    ensures forall k :: 0 <= k < |StatMethods| ==> '\\' !in StatMethods[k]
    ensures forall k :: 0 <= k < |FeatureAmounts| ==> IsInt32(FeatureAmounts[k])
  {
  }

  // ---------------------------------------------------------------------------
  // One configuration
  // ---------------------------------------------------------------------------

  function ArffPath(env: Environment, folder: string): string
  {
    folder + [env.separator] + "data.arff"
  }

  /** The `data.arff` files the sweep has written so far, by path, with the
      data set each was written from. */
  type Written = map<string, ClassifiedInstances>

  /** Whether `path` exists: written earlier in the sweep, or there before. */
  predicate ArffExists(env: Environment, written: Written, path: string)
  {
    path in written || env.fileExists(path)
  }

  /** `loadInstancesFromArffFile(path)`: a file the sweep wrote is read back
      from the data set written to it, any other through `loadArff`. */
  function ReadArff(env: Environment, written: Written, path: string): Option<ClassifiedInstances>
  {
    if path in written then env.reread(written[path]) else env.loadArff(path)
  }

  /** The `.arff` branch when `folder/data.arff` exists, else the raw branch;
      `None` when something throws. */
  function Load(env: Environment, written: Written, folder: string): Option<Loaded>
  {
    if ArffExists(env, written, ArffPath(env, folder)) then
      match ReadArff(env, written, ArffPath(env, folder))
      case None => None
      case Some(d) =>
        match TotalFeaturesFromFolder(folder)
        case None => None
        case Some(total) => Some(Loaded(d, total))
    else
      match env.loadRaw(folder + [env.separator] + "ham", Ham)
      case None => None
      case Some(ham) =>
        match env.loadRaw(folder + [env.separator] + "spam", Spam)
        case None => None
        case Some(spam) =>
          var matched := env.matchCardinalities(ham, spam);
          match env.merge(matched.0, matched.1)
          case None => None
          case Some(d) => Some(Loaded(d, |d.attributes| - 1))
  }

  function Filtered(env: Environment, s: Settings, d: ClassifiedInstances): ClassifiedInstances
  {
    var shrunk := if s.shrinkFeatures then env.attributeFilter(d) else d;
    if s.balanceClasses then env.instanceFilter(shrunk) else shrunk
  }

  /** Whether saving the filtered set to `folder/data.arff`, when asked,
      throws. */
  predicate SaveFails(env: Environment, s: Settings, folder: string)
  {
    s.saveArff && !env.writeArff(ArffPath(env, folder))
  }

  /** The empty patterns over the filtered data set's features, when asked;
      `None` when `createEmptyInstances` throws on a negative count. */
  function Empties(s: Settings, d: ClassifiedInstances, m: Metadata): Option<seq<Instance>>
  {
    if !s.includeEmpty then Some([])
    else if m.emptyHamCount < 0 || m.emptySpamCount < 0 then None
    else Some(EmptyPatterns(|d.attributes| - 1, m.emptyHamCount, m.emptySpamCount))
  }

  /** One configuration, given the files written before it. */
  function Configure(env: Environment, s: Settings, written: Written, c: Configuration): ConfigOutcome
  {
    match Load(env, written, c.metadata.folder)
    case None => Failed(None)
    case Some(loaded) => RunsOn(env, s, c, loaded)
  }

  /** Filter, save the `.arff` file when asked, build the empty patterns when
      asked, run. The final summary is logged only when the runs end
      normally, at least one run was scheduled and testing is not skipped. */
  function RunsOn(env: Environment, s: Settings, c: Configuration, loaded: Loaded): ConfigOutcome
  {
    if SaveFails(env, s, c.metadata.folder) then Failed(None)
    else RunsFrom(env, s, c, loaded.totalFeatures, Filtered(env, s, loaded.dataSet))
  }

  /** The configuration from the filtered data set `d` on. */
  function RunsFrom(env: Environment, s: Settings, c: Configuration, totalFeatures: int, d: ClassifiedInstances): ConfigOutcome
  {
    var p := RunPolicy(s, c.methodConfig);
    var o := RunOracles(env, c);
    match Empties(s, d, c.metadata)
    case None => Failed(None)
    case Some(empties) =>
      var runs := Runs(p, o, empties, d.rows);
      if Aborted(p, o, empties, d.rows) then
        Failed(Some(ConfigReport(c, Some(totalFeatures), |d.attributes| - 1, runs, false)))
      else
        Completed(ConfigReport(c, Some(totalFeatures), |d.attributes| - 1, runs, s.runs > 0 && !s.skipTest))
  }

  /** The files written once configuration `c` is done: with `saveArff`, a
      loaded configuration leaves its filtered set in `folder/data.arff`. */
  function Saved(env: Environment, s: Settings, written: Written, c: Configuration): Written
  {
    match Load(env, written, c.metadata.folder)
    case None => written
    case Some(loaded) => SavedFrom(env, s, written, c, loaded)
  }

  function SavedFrom(env: Environment, s: Settings, written: Written, c: Configuration, loaded: Loaded): Written
  {
    var path := ArffPath(env, c.metadata.folder);
    if s.saveArff && env.writeArff(path) then written[path := Filtered(env, s, loaded.dataSet)] else written
  }

  /** The files written by the configurations `configs`, in turn. */
  function WrittenBy(env: Environment, s: Settings, configs: seq<Configuration>): Written
  {
    if configs == [] then map[]
    else Saved(env, s, WrittenBy(env, s, configs[..|configs| - 1]), configs[|configs| - 1])
  }

  lemma WrittenStep(env: Environment, s: Settings, configs: seq<Configuration>, c: Configuration)
    ensures WrittenBy(env, s, configs + [c]) == Saved(env, s, WrittenBy(env, s, configs), c)
  {
    assert (configs + [c])[..|configs|] == configs;
  }

  /** Each configuration sees the files the ones before it wrote. */
  function Configurer(env: Environment, s: Settings): Handler
  {
    (before, c) => Configure(env, s, WrittenBy(env, s, before), c)
  }

  method LoadFolder(env: Environment, written: Written, folder: string) returns (r: Option<Loaded>)
    ensures r == Load(env, written, folder)
  {
    var arffFilePath := ArffPath(env, folder);
    if arffFilePath in written || env.fileExists(arffFilePath) {
      var dataSet := if arffFilePath in written then env.reread(written[arffFilePath]) else env.loadArff(arffFilePath);
      if dataSet.None? {
        return None;
      }
      var total := TotalFeaturesFromFolder(folder);
      if total.None? {
        return None;
      }
      return Some(Loaded(dataSet.value, total.value));
    }
    var ham := env.loadRaw(folder + [env.separator] + "ham", Ham);
    if ham.None? {
      return None;
    }
    var spam := env.loadRaw(folder + [env.separator] + "spam", Spam);
    if spam.None? {
      return None;
    }
    var matched := env.matchCardinalities(ham.value, spam.value);
    var merged := env.merge(matched.0, matched.1);
    if merged.None? {
      return None;
    }
    return Some(Loaded(merged.value, |merged.value.attributes| - 1));
  }

  /** `saveInstancesToArffFile(dataSet, folder/data.arff)` when asked: `ok`
      is false when it throws. */
  method SaveArff(env: Environment, s: Settings, written: Written, folder: string, dataSet: ClassifiedInstances)
    returns (ok: bool, after: Written)
    ensures ok == !SaveFails(env, s, folder)
    ensures after == if s.saveArff && ok then written[ArffPath(env, folder) := dataSet] else written
  {
    after := written;
    ok := true;
    if s.saveArff {
      var path := ArffPath(env, folder);
      if !env.writeArff(path) {
        return false, after;
      }
      after := after[path := dataSet];
    }
  }

  /** The empty patterns when asked, over the data set's features. */
  method BuildEmpties(s: Settings, d: ClassifiedInstances, m: Metadata) returns (r: Option<seq<Instance>>)
    ensures r == Empties(s, d, m)
  {
    if !s.includeEmpty {
      return Some([]);
    }
    var empty := CreateEmptyInstances(|d.attributes| - 1, m.emptyHamCount, m.emptySpamCount);
    if empty.None? {
      return None;
    }
    return Some(empty.value.rows);
  }

  /** The configuration once its data set is loaded, and the files written
      after it. */
  method RunLoaded(env: Environment, s: Settings, written: Written, c: Configuration, loaded: Loaded)
    returns (outcome: ConfigOutcome, after: Written)
    ensures outcome == RunsOn(env, s, c, loaded)
    ensures after == SavedFrom(env, s, written, c, loaded)
  {
    var dataSet := loaded.dataSet;
    if s.shrinkFeatures {
      dataSet := env.attributeFilter(dataSet);
    }
    if s.balanceClasses {
      dataSet := env.instanceFilter(dataSet);
    }
    assert dataSet == Filtered(env, s, loaded.dataSet);
    var saved;
    saved, after := SaveArff(env, s, written, c.metadata.folder, dataSet);
    if !saved {
      return Failed(None), after;
    }
    outcome := RunFiltered(env, s, c, loaded.totalFeatures, dataSet);
  }

  /** The rest of the configuration once the filtered set is saved: the
      empty patterns and the runs. */
  method RunFiltered(env: Environment, s: Settings, c: Configuration, totalFeatures: int, dataSet: ClassifiedInstances)
    returns (outcome: ConfigOutcome)
    ensures outcome == RunsFrom(env, s, c, totalFeatures, dataSet)
  {
    var actualFeatures := |dataSet.attributes| - 1;
    var emptySet := BuildEmpties(s, dataSet, c.metadata);
    if emptySet.None? {
      return Failed(None);
    }
    var runs, aborted := RunConfiguration(RunPolicy(s, c.methodConfig), RunOracles(env, c), emptySet.value, dataSet.rows);
    if aborted {
      return Failed(Some(ConfigReport(c, Some(totalFeatures), actualFeatures, runs, false)));
    }
    outcome := Completed(ConfigReport(c, Some(totalFeatures), actualFeatures, runs, s.runs > 0 && !s.skipTest));
  }

  method RunOne(env: Environment, s: Settings, written: Written, c: Configuration)
    returns (outcome: ConfigOutcome, after: Written)
    ensures outcome == Configure(env, s, written, c)
    ensures after == Saved(env, s, written, c)
  {
    var loaded := LoadFolder(env, written, c.metadata.folder);
    if loaded.None? {
      return Failed(None), written;
    }
    outcome, after := RunLoaded(env, s, written, c, loaded.value);
  }

  /** The inner loop of `ExecutionHelper.run`: every data set with method
      `i`, stopping at the first exception; the sweep either ends there or has
      covered the first `i + 1` methods, leaving their `.arff` files. */
  method RunMethod(env: Environment, s: Settings, methods: seq<MethodConfiguration>, metadata: seq<Metadata>,
                   i: int, before: seq<ConfigReport>, written: Written)
    returns (reports: seq<ConfigReport>, aborted: bool, after: Written)
    requires 0 <= i < |methods|
    requires Outcome(before, false) == Sweep.Run(Configurer(env, s), Configurations(methods[..i], metadata))
    requires written == WrittenBy(env, s, Configurations(methods[..i], metadata))
    ensures aborted ==> Outcome(reports, true) == Sweep.Run(Configurer(env, s), Configurations(methods, metadata))
    ensures !aborted ==> Outcome(reports, false) == Sweep.Run(Configurer(env, s), Configurations(methods[..i + 1], metadata))
    ensures !aborted ==> after == WrittenBy(env, s, Configurations(methods[..i + 1], metadata))
  {
    ghost var configure := Configurer(env, s);
    VisitedMethod(methods, metadata, i);
    reports := before;
    after := written;
    var j := 0;
    while j < |metadata|
      invariant 0 <= j <= |metadata|
      invariant Outcome(reports, false) == Sweep.Run(configure, Visited(methods, metadata, i, j))
      invariant after == WrittenBy(env, s, Visited(methods, metadata, i, j))
    {
      var c := Configuration(methods[i], metadata[j]);
      var outcome, next := RunOne(env, s, after, c);
      assert configure(Visited(methods, metadata, i, j), c) == outcome;
      if outcome.Failed? {
        SweepStops(configure, methods, metadata, i, j, reports, outcome.partial);
        return reports + Reported(outcome.partial), true, next;
      }
      SweepContinues(configure, methods, metadata, i, j, reports, outcome.report);
      VisitedStep(methods, metadata, i, j);
      WrittenStep(env, s, Visited(methods, metadata, i, j), c);
      reports := reports + [outcome.report];
      after := next;
      j := j + 1;
    }
    aborted := false;
  }

  /** `ExecutionHelper.run`: methods outer, data sets inner; the `catch`
      around both loops ends the sweep at the first exception. */
  method Run(env: Environment, s: Settings, methods: seq<MethodConfiguration>, metadata: seq<Metadata>)
    returns (reports: seq<ConfigReport>, aborted: bool)
    ensures Outcome(reports, aborted) == Sweep.Run(Configurer(env, s), Configurations(methods, metadata))
  {
    reports := [];
    var written: Written := map[];
    var i := 0;
    while i < |methods|
      invariant 0 <= i <= |methods|
      invariant Outcome(reports, false) == Sweep.Run(Configurer(env, s), Configurations(methods[..i], metadata))
      invariant written == WrittenBy(env, s, Configurations(methods[..i], metadata))
    {
      var stopped;
      reports, stopped, written := RunMethod(env, s, methods, metadata, i, reports, written);
      if stopped {
        return reports, true;
      }
      i := i + 1;
    }
    assert methods[..|methods|] == methods;
    aborted := false;
  }

  // ---------------------------------------------------------------------------
  // Properties
  // ---------------------------------------------------------------------------

  lemma ConfigureLabelled(env: Environment, s: Settings)
    ensures Labelled(Configurer(env, s))
  {
  }

  /** Without an exception every (method, data set) pair is reported once, in
      the order of `Configurations`, with its total feature count, and the
      final summary is logged iff a run was scheduled and testing is not
      skipped. */
  lemma ReportsInOrder(env: Environment, s: Settings, methods: seq<MethodConfiguration>, metadata: seq<Metadata>,
                       reports: seq<ConfigReport>)
    requires Sweep.Run(Configurer(env, s), Configurations(methods, metadata)) == Outcome(reports, false)
    ensures |reports| == |Configurations(methods, metadata)|
    ensures forall k :: 0 <= k < |reports| ==>
      reports[k].config == Configurations(methods, metadata)[k]
      && reports[k].totalFeatures.Some?
      && reports[k].finalSummary == (s.runs > 0 && !s.skipTest)
  {
    ConfigureLabelled(env, s);
    ReportsFollowConfigurations(Configurer(env, s), Configurations(methods, metadata));
    forall k | 0 <= k < |reports|
      ensures reports[k].totalFeatures.Some? && reports[k].finalSummary == (s.runs > 0 && !s.skipTest)
    {
      CompletedReport(env, s, Configurations(methods, metadata)[..k], Configurations(methods, metadata)[k], reports[k]);
    }
  }

  lemma CompletedReport(env: Environment, s: Settings, before: seq<Configuration>, c: Configuration, r: ConfigReport)
    requires Configurer(env, s)(before, c) == Completed(r)
    ensures r.totalFeatures.Some? && r.finalSummary == (s.runs > 0 && !s.skipTest)
  {
    assert Configure(env, s, WrittenBy(env, s, before), c) == Completed(r);
  }

  /** The runs a configuration reports are those of the run loop on its
      filtered data set; the total feature count is the folder's last segment
      in the `.arff` branch and the merged set's in the raw branch. */
  lemma ReportedRuns(env: Environment, s: Settings, written: Written, c: Configuration, r: ConfigReport)
    requires Reports(Configure(env, s, written, c), r)
    ensures Load(env, written, c.metadata.folder).Some?
    ensures !SaveFails(env, s, c.metadata.folder)
    ensures Empties(s, Filtered(env, s, Load(env, written, c.metadata.folder).value.dataSet), c.metadata).Some?
    ensures var loaded := Load(env, written, c.metadata.folder).value;
      var d := Filtered(env, s, loaded.dataSet);
      var path := ArffPath(env, c.metadata.folder);
      r.config == c
      && r.runs == Runs(RunPolicy(s, c.methodConfig), RunOracles(env, c), Empties(s, d, c.metadata).value, d.rows)
      && r.actualFeatures == |d.attributes| - 1
      && r.totalFeatures == Some(loaded.totalFeatures)
      && (ArffExists(env, written, path) ==> TotalFeaturesFromFolder(c.metadata.folder) == r.totalFeatures)
      && (!ArffExists(env, written, path) ==> loaded.totalFeatures == |loaded.dataSet.attributes| - 1)
      && (r.finalSummary <==> Configure(env, s, written, c).Completed? && s.runs > 0 && !s.skipTest)
  {
  }

  /** With `saveArff`, a configuration that reaches its runs leaves its
      filtered data set in `folder/data.arff` and touches no other file;
      without it, nothing is written. */
  lemma SavesFilteredSet(env: Environment, s: Settings, written: Written, c: Configuration, r: ConfigReport)
    requires Reports(Configure(env, s, written, c), r)
    ensures var path := ArffPath(env, c.metadata.folder);
      if s.saveArff then
        path in Saved(env, s, written, c)
        && Saved(env, s, written, c)[path] == Filtered(env, s, Load(env, written, c.metadata.folder).value.dataSet)
        && forall other :: other != path ==>
             (other in Saved(env, s, written, c) <==> other in written)
             && (other in written ==> Saved(env, s, written, c)[other] == written[other])
      else Saved(env, s, written, c) == written
  {
    ReportedRuns(env, s, written, c, r);
  }

  /** A folder whose `data.arff` exists but whose last segment is not a 32-bit
      decimal ends the sweep before any run. */
  lemma UnnumberedArffFolderThrows(env: Environment, s: Settings, written: Written, c: Configuration)
    requires ArffExists(env, written, ArffPath(env, c.metadata.folder))
    requires TotalFeaturesFromFolder(c.metadata.folder).None?
    ensures Configure(env, s, written, c) == Failed(None)
  {
  }

  /** With `saveArff`, a raw folder whose last segment is not a number serves
      only the first method: the second finds the `data.arff` the first one
      wrote, takes the `.arff` branch, and throws on the folder name. */
  lemma SavedArffStopsNextMethod(env: Environment, s: Settings, m1: MethodConfiguration, m2: MethodConfiguration,
                                 md: Metadata, r: ConfigReport)
    requires s.saveArff
    requires !env.fileExists(ArffPath(env, md.folder))
    requires TotalFeaturesFromFolder(md.folder).None?
    requires Configure(env, s, map[], Configuration(m1, md)) == Completed(r)
    ensures Sweep.Run(Configurer(env, s), Configurations([m1, m2], [md])) == Outcome([r], true)
  {
    var c1 := Configuration(m1, md);
    var c2 := Configuration(m2, md);
    assert Configurations([m1, m2], [md]) == [c1, c2] by {
      assert [m1, m2][..1] == [m1];
      assert [m1][..0] == [];
      assert Configurations([m1], [md]) == [c1];
      assert Pairs(m2, [md]) == [c2];
    }
    SavesFilteredSet(env, s, map[], c1, r);
    assert WrittenBy(env, s, [c1]) == Saved(env, s, map[], c1) by {
      WrittenStep(env, s, [], c1);
    }
    UnnumberedArffFolderThrows(env, s, WrittenBy(env, s, [c1]), c2);
    assert [c1, c2][..1] == [c1];
    RunStep(Configurer(env, s), [], c1);
    RunStep(Configurer(env, s), [c1], c2);
  }

  /** With outlier removal off, or testing skipped, nothing is removed and a
      configuration makes exactly `numberOfRuns` runs (none if it is not
      positive). */
  lemma ExactRunCount(env: Environment, s: Settings, written: Written, c: Configuration, r: ConfigReport)
    requires Configure(env, s, written, c) == Completed(r)
    requires !s.removeOutliers || s.skipTest
    ensures |r.runs| == Max0(s.runs)
    ensures forall k :: 0 <= k < |r.runs| ==> r.runs[k].removed.None?
  {
    ReportedRuns(env, s, written, c, r);
    var d := Filtered(env, s, Load(env, written, c.metadata.folder).value.dataSet);
    RunsWithoutDetection(RunPolicy(s, c.methodConfig), RunOracles(env, c), Empties(s, d, c.metadata).value, d.rows);
  }

  /** The generator is reset for every configuration and updated once per run,
      so run `k` uses the generator after `k + 1` updates. */
  lemma SeedsCountUpdates(env: Environment, s: Settings, written: Written, c: Configuration, r: ConfigReport, k: int)
    requires Reports(Configure(env, s, written, c), r)
    requires 0 <= k < |r.runs|
    ensures r.runs[k].seed == k + 1
  {
    ReportedRuns(env, s, written, c, r);
    var d := Filtered(env, s, Load(env, written, c.metadata.folder).value.dataSet);
    UpdateCountSeeds(RunPolicy(s, c.methodConfig), RunOracles(env, c), Empties(s, d, c.metadata).value, d.rows, k);
  }

  /** Every run uses a fresh copy of the base classifier, trains iff training
      is not skipped, and, when models are saved, every run of the
      configuration saves to the same file, so the last run's model is the
      one left. */
  lemma OneModelFilePerConfiguration(env: Environment, s: Settings, written: Written, c: Configuration, r: ConfigReport, k: int)
    requires Reports(Configure(env, s, written, c), r)
    requires 0 <= k < |r.runs|
    ensures r.runs[k].classifier == CopyOfBase
    ensures r.runs[k].trained == !s.skipTrain
    ensures r.runs[k].savedTo == (if s.saveModel then Some(ModelFile(env, c)) else None)
  {
    ReportedRuns(env, s, written, c, r);
    var d := Filtered(env, s, Load(env, written, c.metadata.folder).value.dataSet);
    ModelFiles(RunPolicy(s, c.methodConfig), RunOracles(env, c), Empties(s, d, c.metadata).value, d.rows, k);
  }

  /** Under a Weka shuffle, with a split in `[0, 1]` and a data set that fits
      in an `int`, a configuration throws exactly when loading fails, when
      saving the `.arff` file fails, or when empty patterns are asked for
      with a negative count. */
  lemma OnlySetupThrows(env: Environment, s: Settings, written: Written, c: Configuration)
    requires IsShuffle(RunOracles(env, c))
    requires 0.0 <= c.methodConfig.splitPercent <= 1.0
    requires Load(env, written, c.metadata.folder).Some? ==>
      |Filtered(env, s, Load(env, written, c.metadata.folder).value.dataSet).rows| <= IntMax
    ensures Configure(env, s, written, c).Failed? <==>
      Load(env, written, c.metadata.folder).None?
      || SaveFails(env, s, c.metadata.folder)
      || (s.includeEmpty && (c.metadata.emptyHamCount < 0 || c.metadata.emptySpamCount < 0))
  {
    if Load(env, written, c.metadata.folder).Some? {
      var d := Filtered(env, s, Load(env, written, c.metadata.folder).value.dataSet);
      if Empties(s, d, c.metadata).Some? {
        ConfigNeverAborts(RunPolicy(s, c.methodConfig), RunOracles(env, c), Empties(s, d, c.metadata).value, d.rows);
      }
    }
  }
}
