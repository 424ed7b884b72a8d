/** `Runner.run`: for every method and every data set, load the ham and spam
    raw files with `InputOutputHelper.loadInstancesFromFile`, apply the
    feature and class filters when asked, build the empty patterns when asked,
    and make the runs with seeds `nextPrime(++seed)` from 1, the method's own
    split, outlier removal always on, and the classifier loaded from its
    seed's model file when training is skipped. */
module Runner {
  import opened JavaText
  import opened WekaData
  import opened RunLoop
  import opened InputOutput
  import opened Sweep
  import opened Primes

  /** The command-line settings `Runner` reads. */
  datatype Settings = Settings(
    runs: int,
    skipTrain: bool,
    skipTest: bool,
    includeEmpty: bool,
    shrinkFeatures: bool,
    balanceClasses: bool,
    saveModel: bool)

  /** The outside world: `File.separator`, the contents of a file (`None` when
      it cannot be opened), Weka's feature and class filters and its shuffle,
      and the outlier detector's answers in each configuration. */
  datatype Environment = Environment(
    separator: char,
    readFile: string -> Option<seq<Byte>>,
    attributeFilter: ClassifiedInstances -> ClassifiedInstances,
    instanceFilter: ClassifiedInstances -> ClassifiedInstances,
    shuffle: (int, seq<Instance>) -> seq<Instance>,
    detections: Configuration -> seq<nat>)

  function RunPolicy(s: Settings, m: MethodConfiguration): Policy
  {
    Policy(s.runs, m.splitPercent, s.skipTrain, s.skipTest, s.includeEmpty, true, true, s.saveModel, NextPrimeSeeds)
  }

  /** The run loop's collaborators; the model file of a run is
      `buildClassifierFilename(folder, method, splitPercent, seed)`. */
  function RunOracles(env: Environment, c: Configuration): Oracles
  {
    Oracles(env.shuffle,
      seed => BuildClassifierFilename(c.metadata.folder, env.separator, c.methodConfig.simpleName, c.methodConfig.splitPercent, seed),
      env.detections(c))
  }

  /** `loadInstancesFromFile(folder/ham, folder/spam)`; `None` when a file
      cannot be opened or does not decode. */
  function Load(env: Environment, folder: string): (d: Option<ClassifiedInstances>)
  {
    var ham := env.readFile(folder + [env.separator] + "ham");
    var spam := env.readFile(folder + [env.separator] + "spam");
    if ham.None? || spam.None? then None
    else
      match LoadHamSpam(ham.value, spam.value)
      case Err(_) => None
      case Ok(loaded) => Some(loaded)
  }

  /** The data set after the filters that are switched on. */
  function Filtered(env: Environment, s: Settings, d: ClassifiedInstances): ClassifiedInstances
  {
    var shrunk := if s.shrinkFeatures then env.attributeFilter(d) else d;
    if s.balanceClasses then env.instanceFilter(shrunk) else shrunk
  }

  /** The empty patterns over the filtered data set's features, when asked;
      `None` when `createEmptyInstances` throws on a negative count. */
  function Empties(s: Settings, d: ClassifiedInstances, m: Metadata): Option<seq<Instance>>
  {
    if !s.includeEmpty then Some([])
    else if m.emptyHamCount < 0 || m.emptySpamCount < 0 then None
    else Some(EmptyPatterns(|d.attributes| - 1, m.emptyHamCount, m.emptySpamCount))
  }

  /** One configuration: load, filter, run; the final summary is logged iff
      testing is not skipped. */
  function Configure(env: Environment, s: Settings, c: Configuration): ConfigOutcome
  {
    match Load(env, c.metadata.folder)
    case None => Failed(None)
    case Some(loaded) => RunsOn(env, s, c, loaded)
  }

  /** One configuration once its data set is loaded. */
  function RunsOn(env: Environment, s: Settings, c: Configuration, loaded: ClassifiedInstances): ConfigOutcome
  {
    var d := Filtered(env, s, loaded);
    var p := RunPolicy(s, c.methodConfig);
    var o := RunOracles(env, c);
    match Empties(s, d, c.metadata)
    case None => Failed(None)
    case Some(empties) =>
    var runs := Runs(p, o, empties, d.rows);
    if Aborted(p, o, empties, d.rows) then
      Failed(Some(ConfigReport(c, Some(|loaded.attributes| - 1), |d.attributes| - 1, runs, false)))
    else
      Completed(ConfigReport(c, Some(|loaded.attributes| - 1), |d.attributes| - 1, runs, !s.skipTest))
  }

  /** `Runner` writes no file that a later configuration reads, so the
      configurations handled before do not matter. */
  function Configurer(env: Environment, s: Settings): Handler
  {
    (before, c) => Configure(env, s, c)
  }

  /** Reading and decoding the folder's two raw files. */
  method LoadFolder(env: Environment, folder: string) returns (d: Option<ClassifiedInstances>)
    ensures d == Load(env, folder)
  {
    var hamBytes := env.readFile(folder + [env.separator] + "ham");
    var spamBytes := env.readFile(folder + [env.separator] + "spam");
    if hamBytes.None? || spamBytes.None? {
      return None;
    }
    var loaded := LoadInstancesFromFile(hamBytes.value, spamBytes.value);
    if loaded.Err? {
      return None;
    }
    return Some(loaded.value);
  }

  /** The body of the inner loop. */
  method RunOne(env: Environment, s: Settings, c: Configuration) returns (outcome: ConfigOutcome)
    ensures outcome == Configure(env, s, c)
  {
    var loaded := LoadFolder(env, c.metadata.folder);
    if loaded.None? {
      return Failed(None);
    }
    outcome := RunLoaded(env, s, c, loaded.value);
  }

  method RunLoaded(env: Environment, s: Settings, c: Configuration, loaded: ClassifiedInstances) returns (outcome: ConfigOutcome)
    ensures outcome == RunsOn(env, s, c, loaded)
  {
    var dataSet := loaded;
    var totalFeatures := |dataSet.attributes| - 1;
    if s.shrinkFeatures {
      dataSet := env.attributeFilter(dataSet);
    }
    if s.balanceClasses {
      dataSet := env.instanceFilter(dataSet);
    }
    var actualFeatures := |dataSet.attributes| - 1;
    var emptySet: seq<Instance> := [];
    if s.includeEmpty {
      var empty := CreateEmptyInstances(actualFeatures, c.metadata.emptyHamCount, c.metadata.emptySpamCount);
      if empty.None? {
        return Failed(None);
      }
      emptySet := empty.value.rows;
    }
    var runs, aborted := RunConfiguration(RunPolicy(s, c.methodConfig), RunOracles(env, c), emptySet, dataSet.rows);
    if aborted {
      return Failed(Some(ConfigReport(c, Some(totalFeatures), actualFeatures, runs, false)));
    }
    outcome := Completed(ConfigReport(c, Some(totalFeatures), actualFeatures, runs, !s.skipTest));
  }

  /** `Runner.run`: methods outer, data sets inner; an exception ends it. */
  method Run(env: Environment, s: Settings, methods: seq<MethodConfiguration>, metadata: seq<Metadata>)
    returns (reports: seq<ConfigReport>, aborted: bool)
    ensures Outcome(reports, aborted) == Sweep.Run(Configurer(env, s), Configurations(methods, metadata))
  {
    ghost var configure := Configurer(env, s);
    reports := [];
    var i := 0;
    while i < |methods|
      invariant 0 <= i <= |methods|
      invariant Outcome(reports, false) == Sweep.Run(configure, Configurations(methods[..i], metadata))
    {
      VisitedMethod(methods, metadata, i);
      var j := 0;
      while j < |metadata|
        invariant 0 <= j <= |metadata|
        invariant Outcome(reports, false) == Sweep.Run(configure, Visited(methods, metadata, i, j))
      {
        var c := Configuration(methods[i], metadata[j]);
        var outcome := RunOne(env, s, c);
        assert configure(Visited(methods, metadata, i, j), c) == outcome;
        if outcome.Failed? {
          SweepStops(configure, methods, metadata, i, j, reports, outcome.partial);
          return reports + Reported(outcome.partial), true;
        }
        SweepContinues(configure, methods, metadata, i, j, reports, outcome.report);
        reports := reports + [outcome.report];
        j := j + 1;
      }
      i := i + 1;
    }
    assert methods[..|methods|] == methods;
    aborted := false;
  }

  // ---------------------------------------------------------------------------
  // Properties
  // ---------------------------------------------------------------------------

  /** Each configuration's report is labelled with it. */
  lemma ConfigureLabelled(env: Environment, s: Settings)
    ensures Labelled(Configurer(env, s))
  {
  }

  /** Without an exception every (method, data set) pair is reported once, in
      the order of `Configurations` (methods outer, data sets inner), and its
      final summary is logged iff testing is not skipped. */
  lemma ReportsInOrder(env: Environment, s: Settings, methods: seq<MethodConfiguration>, metadata: seq<Metadata>,
                       reports: seq<ConfigReport>)
    requires Sweep.Run(Configurer(env, s), Configurations(methods, metadata)) == Outcome(reports, false)
    ensures |reports| == |Configurations(methods, metadata)|
    ensures forall k :: 0 <= k < |reports| ==>
      reports[k].config == Configurations(methods, metadata)[k] && reports[k].finalSummary == !s.skipTest
  {
    ConfigureLabelled(env, s);
    ReportsFollowConfigurations(Configurer(env, s), Configurations(methods, metadata));
    forall k | 0 <= k < |reports| ensures reports[k].finalSummary == !s.skipTest {
      CompletedReport(env, s, Configurations(methods, metadata)[..k], Configurations(methods, metadata)[k], reports[k]);
    }
  }

  lemma CompletedReport(env: Environment, s: Settings, before: seq<Configuration>, c: Configuration, r: ConfigReport)
    requires Configurer(env, s)(before, c) == Completed(r)
    ensures r.finalSummary == !s.skipTest
  {
    assert Configure(env, s, c) == Completed(r);
  }

  /** The runs a configuration reports are those of the run loop on its
      filtered data set. */
  lemma ReportedRuns(env: Environment, s: Settings, c: Configuration, r: ConfigReport)
    requires Reports(Configure(env, s, c), r)
    ensures r.config == c && Load(env, c.metadata.folder).Some?
    ensures Empties(s, Filtered(env, s, Load(env, c.metadata.folder).value), c.metadata).Some?
    ensures var d := Filtered(env, s, Load(env, c.metadata.folder).value);
      r.runs == Runs(RunPolicy(s, c.methodConfig), RunOracles(env, c), Empties(s, d, c.metadata).value, d.rows)
      && r.totalFeatures == Some(|Load(env, c.metadata.folder).value.attributes| - 1)
      && r.actualFeatures == |d.attributes| - 1
      && (r.finalSummary <==> Configure(env, s, c).Completed? && !s.skipTest)
  {
  }

  /** Every configuration starts again from seed 1: its runs use the primes
      2, 3, 5, … in increasing order, skipping none. */
  lemma SeedsArePrimes(env: Environment, s: Settings, c: Configuration, r: ConfigReport)
    requires Reports(Configure(env, s, c), r)
    ensures |r.runs| > 0 ==> r.runs[0].seed == 2
    ensures forall k :: 0 <= k < |r.runs| ==> IsPrime(r.runs[k].seed)
    ensures forall k :: 0 < k < |r.runs| ==> NextPrimeAfter(r.runs[k - 1].seed, r.runs[k].seed)
  {
    ReportedRuns(env, s, c, r);
    var d := Filtered(env, s, Load(env, c.metadata.folder).value);
    var p := RunPolicy(s, c.methodConfig);
    var o := RunOracles(env, c);
    var empties := Empties(s, d, c.metadata).value;
    forall k | 0 <= k < |r.runs|
      ensures IsPrime(r.runs[k].seed) && (k == 0 ==> r.runs[k].seed == 2)
      ensures k > 0 ==> NextPrimeAfter(r.runs[k - 1].seed, r.runs[k].seed)
    {
      PrimeSeeds(p, o, empties, d.rows, k);
    }
  }

  /** Skipping training loads the classifier from the run's model file; a
      saved model goes to that same file; and no two runs of a configuration
      share a model file, so none overwrites another's. */
  lemma ModelFilesPerRun(env: Environment, s: Settings, c: Configuration, r: ConfigReport)
    requires Reports(Configure(env, s, c), r)
    ensures forall k :: 0 <= k < |r.runs| ==>
      var file := BuildClassifierFilename(c.metadata.folder, env.separator, c.methodConfig.simpleName, c.methodConfig.splitPercent, r.runs[k].seed);
      (r.runs[k].trained <==> !s.skipTrain)
      && r.runs[k].classifier == (if s.skipTrain then LoadedFrom(file) else CopyOfBase)
      && r.runs[k].savedTo == (if s.saveModel then Some(file) else None)
    ensures forall k, l :: 0 <= k < l < |r.runs| && s.saveModel ==> r.runs[k].savedTo != r.runs[l].savedTo
  {
    ReportedRuns(env, s, c, r);
    var d := Filtered(env, s, Load(env, c.metadata.folder).value);
    var p := RunPolicy(s, c.methodConfig);
    var o := RunOracles(env, c);
    var empties := Empties(s, d, c.metadata).value;
    ConfigRecords(p, o, empties, d.rows);
    forall k | 0 <= k < |r.runs|
      ensures var file := BuildClassifierFilename(c.metadata.folder, env.separator, c.methodConfig.simpleName, c.methodConfig.splitPercent, r.runs[k].seed);
      (r.runs[k].trained <==> !s.skipTrain)
      && r.runs[k].classifier == (if s.skipTrain then LoadedFrom(file) else CopyOfBase)
      && r.runs[k].savedTo == (if s.saveModel then Some(file) else None)
    {
      assert RecordOk(p, o, empties, r.runs[k]);
    }
    forall k, l | 0 <= k < l < |r.runs| && s.saveModel ensures r.runs[k].savedTo != r.runs[l].savedTo {
      SeedsIncrease(p, o, empties, d.rows, k, l);
      assert RecordOk(p, o, empties, r.runs[k]) && RecordOk(p, o, empties, r.runs[l]);
      if r.runs[k].savedTo == r.runs[l].savedTo {
        ClassifierFilenameSeedInjective(c.metadata.folder, env.separator, c.methodConfig.simpleName,
          c.methodConfig.splitPercent, r.runs[k].seed, r.runs[l].seed);
      }
    }
  }

  /** Under a Weka shuffle, with a split in `[0, 1]` and data sets that fit in
      an `int`, a configuration throws exactly when its files cannot be loaded
      or when empty patterns are asked for with a negative count. */
  lemma OnlySetupThrows(env: Environment, s: Settings, c: Configuration)
    requires IsShuffle(RunOracles(env, c))
    requires 0.0 <= c.methodConfig.splitPercent <= 1.0
    requires Load(env, c.metadata.folder).Some? ==> |Filtered(env, s, Load(env, c.metadata.folder).value).rows| <= IntMax
    ensures Configure(env, s, c).Failed? <==>
      Load(env, c.metadata.folder).None?
      || (s.includeEmpty && (c.metadata.emptyHamCount < 0 || c.metadata.emptySpamCount < 0))
  {
    if Load(env, c.metadata.folder).Some? {
      var d := Filtered(env, s, Load(env, c.metadata.folder).value);
      if Empties(s, d, c.metadata).Some? {
        ConfigNeverAborts(RunPolicy(s, c.methodConfig), RunOracles(env, c), Empties(s, d, c.metadata).value, d.rows);
      }
    }
  }
}
