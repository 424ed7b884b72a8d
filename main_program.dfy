/** `xyz.marcelo.main.Main.main`: the older driver. Its helpers `IOHelper`,
    `ResultHelper` and `FilterHelper` are collaborators here; the loop is the
    one of `Runner` with the split fixed at 0.5, and only the actual feature
    count is set on the evaluation. */
module MainProgram {
  import opened JavaText
  import opened WekaData
  import opened RunLoop
  import opened InputOutput
  import opened Sweep
  import opened Primes

  /** The command-line settings `CLIHelper` provides. */
  datatype Settings = Settings(
    runs: int,
    skipTrain: bool,
    skipTest: bool,
    includeEmpty: bool,
    shrinkFeatures: bool,
    balanceClasses: bool,
    saveModel: bool)

  /** The collaborators: `IOHelper.loadInstancesFromFile` on a folder's ham and
      spam files and `IOHelper.createEmptyInstances` (each `None` when it
      throws),
      `IOHelper.buildClassifierFilename`, the two `FilterHelper` filters,
      Weka's shuffle and `ResultHelper.detectAndRemoveOutliers`'s answers in
      each configuration. */
  datatype Environment = Environment(
    load: string -> Option<ClassifiedInstances>,
    emptyInstances: (nat, int, int) -> Option<seq<Instance>>,
    modelFile: (string, MethodConfiguration, real, int) -> string,
    attributeFilter: ClassifiedInstances -> ClassifiedInstances,
    instanceFilter: ClassifiedInstances -> ClassifiedInstances,
    shuffle: (int, seq<Instance>) -> seq<Instance>,
    detections: Configuration -> seq<nat>)

  /** `double splitPercent = 0.5`. */
  const Split: real := 0.5

  function RunPolicy(s: Settings): Policy
  {
    Policy(s.runs, Split, s.skipTrain, s.skipTest, s.includeEmpty, true, true, s.saveModel, NextPrimeSeeds)
  }

  function RunOracles(env: Environment, c: Configuration): Oracles
  {
    Oracles(env.shuffle, seed => env.modelFile(c.metadata.folder, c.methodConfig, Split, seed), env.detections(c))
  }

  function Filtered(env: Environment, s: Settings, d: ClassifiedInstances): ClassifiedInstances
  {
    var shrunk := if s.shrinkFeatures then env.attributeFilter(d) else d;
    if s.balanceClasses then env.instanceFilter(shrunk) else shrunk
  }

  /** The empty patterns when asked; `None` when building them throws. */
  function Empties(env: Environment, s: Settings, d: ClassifiedInstances, m: Metadata): Option<seq<Instance>>
  {
    if s.includeEmpty then env.emptyInstances(|d.attributes| - 1, m.emptyHamCount, m.emptySpamCount) else Some([])
  }

  /** One configuration: load, filter, run; the total feature count is never
      set, and the final summary is logged iff testing is not skipped. */
  function Configure(env: Environment, s: Settings, c: Configuration): ConfigOutcome
  {
    match env.load(c.metadata.folder)
    case None => Failed(None)
    case Some(loaded) => RunsOn(env, s, c, Filtered(env, s, loaded))
  }

  function RunsOn(env: Environment, s: Settings, c: Configuration, d: ClassifiedInstances): ConfigOutcome
  {
    match Empties(env, s, d, c.metadata)
    case None => Failed(None)
    case Some(empties) =>
    var runs := Runs(RunPolicy(s), RunOracles(env, c), empties, d.rows);
    if Aborted(RunPolicy(s), RunOracles(env, c), empties, d.rows) then
      Failed(Some(ConfigReport(c, None, |d.attributes| - 1, runs, false)))
    else
      Completed(ConfigReport(c, None, |d.attributes| - 1, runs, !s.skipTest))
  }

  /** `Main` writes no file that a later configuration reads. */
  function Configurer(env: Environment, s: Settings): Handler
  {
    (before, c) => Configure(env, s, c)
  }

  /** The body of the inner loop. */
  method RunOne(env: Environment, s: Settings, c: Configuration) returns (outcome: ConfigOutcome)
    ensures outcome == Configure(env, s, c)
  {
    var loaded := env.load(c.metadata.folder);
    if loaded.None? {
      return Failed(None);
    }
    var dataSet := loaded.value;
    if s.shrinkFeatures {
      dataSet := env.attributeFilter(dataSet);
    }
    if s.balanceClasses {
      dataSet := env.instanceFilter(dataSet);
    }
    var emptySet: seq<Instance> := [];
    if s.includeEmpty {
      var empty := env.emptyInstances(|dataSet.attributes| - 1, c.metadata.emptyHamCount, c.metadata.emptySpamCount);
      if empty.None? {
        return Failed(None);
      }
      emptySet := empty.value;
    }
    var runs, aborted := RunConfiguration(RunPolicy(s), RunOracles(env, c), emptySet, dataSet.rows);
    var actualFeatures := |dataSet.attributes| - 1;
    if aborted {
      return Failed(Some(ConfigReport(c, None, actualFeatures, runs, false)));
    }
    outcome := Completed(ConfigReport(c, None, actualFeatures, runs, !s.skipTest));
  }

  /** `Main.main`: methods outer, data sets inner; an exception ends it. */
  method Run(env: Environment, s: Settings, methods: seq<MethodConfiguration>, metadata: seq<Metadata>)
    returns (reports: seq<ConfigReport>, aborted: bool)
    ensures Outcome(reports, aborted) == Sweep.Run(Configurer(env, s), Configurations(methods, metadata))
  {
    ghost var configure := Configurer(env, s);
    reports := [];
    var i := 0;
    while i < |methods|
      invariant 0 <= i <= |methods|
      invariant Outcome(reports, false) == Sweep.Run(configure, Configurations(methods[..i], metadata))
    {
      VisitedMethod(methods, metadata, i);
      var j := 0;
      while j < |metadata|
        invariant 0 <= j <= |metadata|
        invariant Outcome(reports, false) == Sweep.Run(configure, Visited(methods, metadata, i, j))
      {
        var c := Configuration(methods[i], metadata[j]);
        var outcome := RunOne(env, s, c);
        assert configure(Visited(methods, metadata, i, j), c) == outcome;
        if outcome.Failed? {
          SweepStops(configure, methods, metadata, i, j, reports, outcome.partial);
          return reports + Reported(outcome.partial), true;
        }
        SweepContinues(configure, methods, metadata, i, j, reports, outcome.report);
        reports := reports + [outcome.report];
        j := j + 1;
      }
      i := i + 1;
    }
    assert methods[..|methods|] == methods;
    aborted := false;
  }

  // ---------------------------------------------------------------------------
  // Properties
  // ---------------------------------------------------------------------------

  lemma ConfigureLabelled(env: Environment, s: Settings)
    ensures Labelled(Configurer(env, s))
  {
  }

  /** Without an exception every (method, data set) pair is reported once, in
      the order of `Configurations`; only the actual feature count is set, and
      the final summary is logged iff testing is not skipped. */
  lemma ReportsInOrder(env: Environment, s: Settings, methods: seq<MethodConfiguration>, metadata: seq<Metadata>,
                       reports: seq<ConfigReport>)
    requires Sweep.Run(Configurer(env, s), Configurations(methods, metadata)) == Outcome(reports, false)
    ensures |reports| == |Configurations(methods, metadata)|
    ensures forall k :: 0 <= k < |reports| ==>
      reports[k].config == Configurations(methods, metadata)[k]
      && reports[k].totalFeatures.None?
      && reports[k].finalSummary == !s.skipTest
  {
    ConfigureLabelled(env, s);
    ReportsFollowConfigurations(Configurer(env, s), Configurations(methods, metadata));
    forall k | 0 <= k < |reports| ensures reports[k].totalFeatures.None? && reports[k].finalSummary == !s.skipTest {
      CompletedReport(env, s, Configurations(methods, metadata)[..k], Configurations(methods, metadata)[k], reports[k]);
    }
  }

  lemma CompletedReport(env: Environment, s: Settings, before: seq<Configuration>, c: Configuration, r: ConfigReport)
    requires Configurer(env, s)(before, c) == Completed(r)
    ensures r.totalFeatures.None? && r.finalSummary == !s.skipTest
  {
    assert Configure(env, s, c) == Completed(r);
  }

  /** The runs a configuration reports are those of the run loop on its
      filtered data set. */
  lemma ReportedRuns(env: Environment, s: Settings, c: Configuration, r: ConfigReport)
    requires Reports(Configure(env, s, c), r)
    ensures env.load(c.metadata.folder).Some?
    ensures Empties(env, s, Filtered(env, s, env.load(c.metadata.folder).value), c.metadata).Some?
    ensures var d := Filtered(env, s, env.load(c.metadata.folder).value);
      r.runs == Runs(RunPolicy(s), RunOracles(env, c), Empties(env, s, d, c.metadata).value, d.rows)
      && r.actualFeatures == |d.attributes| - 1
  {
  }

  /** With the split at 0.5, under a Weka shuffle and for a data set that fits
      in an `int`, every run trains on `(n + 1) / 2` rows and tests on the
      other `n / 2`, plus the empty patterns when included. */
  lemma HalfSplitRuns(env: Environment, s: Settings, c: Configuration, r: ConfigReport, k: int)
    requires Reports(Configure(env, s, c), r)
    requires IsShuffle(RunOracles(env, c))
    requires |Filtered(env, s, env.load(c.metadata.folder).value).rows| <= IntMax
    requires 0 <= k < |r.runs|
    ensures var n := |Filtered(env, s, env.load(c.metadata.folder).value).rows|;
      |r.runs[k].training| == (n + 1) / 2
      && |r.runs[k].testing| == n / 2 + |Empties(env, s, Filtered(env, s, env.load(c.metadata.folder).value), c.metadata).value|
  {
    ReportedRuns(env, s, c, r);
    var d := Filtered(env, s, env.load(c.metadata.folder).value);
    var p := RunPolicy(s);
    var o := RunOracles(env, c);
    var empties := Empties(env, s, d, c.metadata).value;
    ConfigChains(p, o, empties, d.rows);
    OrderPermutation(o, d.rows, FinalState(p, o, empties, d.rows), k);
    var order := r.runs[k].order;
    assert |order| == |multiset(order)| == |multiset(d.rows)| == |d.rows|;
    SplitCoversDataSet(p, o, empties, d.rows, k);
    HalfSplit(|order|);
    assert |r.runs[k].training| + |r.runs[k].testing| == |order| + |EmptyPart(p, empties)|;
  }

  /** Under a Weka shuffle, for a data set that fits in an `int`, a
      configuration throws exactly when loading its data set or building its
      empty patterns throws. */
  lemma OnlySetupThrows(env: Environment, s: Settings, c: Configuration)
    requires IsShuffle(RunOracles(env, c))
    requires env.load(c.metadata.folder).Some? ==> |Filtered(env, s, env.load(c.metadata.folder).value).rows| <= IntMax
    ensures Configure(env, s, c).Failed? <==>
      env.load(c.metadata.folder).None?
      || Empties(env, s, Filtered(env, s, env.load(c.metadata.folder).value), c.metadata).None?
  {
    if env.load(c.metadata.folder).Some? {
      var d := Filtered(env, s, env.load(c.metadata.folder).value);
      if Empties(env, s, d, c.metadata).Some? {
        ConfigNeverAborts(RunPolicy(s), RunOracles(env, c), Empties(env, s, d, c.metadata).value, d.rows);
      }
    }
  }

  /** Every configuration starts again from seed 1: its runs use the primes
      2, 3, 5, … in increasing order, skipping none. */
  lemma SeedsArePrimes(env: Environment, s: Settings, c: Configuration, r: ConfigReport)
    requires Reports(Configure(env, s, c), r)
    ensures |r.runs| > 0 ==> r.runs[0].seed == 2
    ensures forall k :: 0 <= k < |r.runs| ==> IsPrime(r.runs[k].seed)
    ensures forall k :: 0 < k < |r.runs| ==> NextPrimeAfter(r.runs[k - 1].seed, r.runs[k].seed)
  {
    ReportedRuns(env, s, c, r);
    var d := Filtered(env, s, env.load(c.metadata.folder).value);
    var p := RunPolicy(s);
    var o := RunOracles(env, c);
    var empties := Empties(env, s, d, c.metadata).value;
    forall k | 0 <= k < |r.runs|
      ensures IsPrime(r.runs[k].seed) && (k == 0 ==> r.runs[k].seed == 2)
      ensures k > 0 ==> NextPrimeAfter(r.runs[k - 1].seed, r.runs[k].seed)
    {
      PrimeSeeds(p, o, empties, d.rows, k);
    }
  }

  /** The outlier rewind: the detector is asked only on a tested run under
      counter value `runs - 1`; when it removes `R` runs and nothing after,
      exactly `R` further runs follow. */
  lemma RewindAddsRuns(env: Environment, s: Settings, c: Configuration, r: ConfigReport, i: int)
    requires Configure(env, s, c) == Completed(r)
    requires 0 <= i < |r.runs| && r.runs[i].removed.Some?
    requires forall k :: i < k < |r.runs| ==> RemovedBy(r.runs[k]) == 0
    ensures !s.skipTest && r.runs[i].index == s.runs - 1
    ensures |r.runs| == i + 1 + r.runs[i].removed.value
  {
    ReportedRuns(env, s, c, r);
    var d := Filtered(env, s, env.load(c.metadata.folder).value);
    var p := RunPolicy(s);
    var o := RunOracles(env, c);
    var empties := Empties(env, s, d, c.metadata).value;
    DetectionOnlyAtLastIndex(p, o, empties, d.rows, i);
    ConfigRecords(p, o, empties, d.rows);
    assert RecordOk(p, o, empties, r.runs[i]);
    RemovalAddsRuns(p, o, empties, d.rows, i);
  }
}
