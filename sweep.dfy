/** The sweep the three experiment drivers share: for every method
    configuration (outer loop) and every data-set metadata entry (inner loop)
    prepare the data set and make that configuration's runs. An exception in
    any configuration ends the whole sweep. */
module Sweep {
  import opened JavaText
  import opened RunLoop
  import opened InputOutput

  /** A `MethodConfiguration` constant: its name, the simple name of its
      classifier class and its split percentage. */
  datatype MethodConfiguration = MethodConfiguration(name: string, simpleName: string, splitPercent: real)

  /** One (method, data set) pair of the sweep. */
  datatype Configuration = Configuration(methodConfig: MethodConfiguration, metadata: Metadata)

  /** What one configuration leaves behind: the feature counts the driver
      computes (`None` when the driver never sets the total), its runs, and
      whether the final aggregate summary is logged. */
  datatype ConfigReport = ConfigReport(
    config: Configuration,
    totalFeatures: Option<int>,
    actualFeatures: int,
    runs: seq<RunRecord>,
    finalSummary: bool)

  /** A configuration either completes, or throws; in the second case the runs
      made before the exception are reported when the run loop had started. */
  datatype ConfigOutcome = Completed(report: ConfigReport) | Failed(partial: Option<ConfigReport>)

  /** How a driver handles one configuration, given the configurations the
      sweep handled before it (a driver may leave files behind that later
      configurations read). */
  type Handler = (seq<Configuration>, Configuration) -> ConfigOutcome

  /** The reports in the order the configurations were visited, and whether an
      exception ended the sweep. */
  datatype Outcome = Outcome(reports: seq<ConfigReport>, aborted: bool)

  /** The inner loop's configurations for one method. */
  function Pairs(m: MethodConfiguration, metadata: seq<Metadata>): (r: seq<Configuration>)
    ensures |r| == |metadata|
    ensures forall j :: 0 <= j < |r| ==> r[j] == Configuration(m, metadata[j])
  {
    seq(|metadata|, j requires 0 <= j < |metadata| => Configuration(m, metadata[j]))
  }

  /** The configurations in visiting order: methods outer, metadata inner. */
  function Configurations(methods: seq<MethodConfiguration>, metadata: seq<Metadata>): seq<Configuration>
  {
    if methods == [] then []
    else Configurations(methods[..|methods| - 1], metadata) + Pairs(methods[|methods| - 1], metadata)
  }

  function Reported(partial: Option<ConfigReport>): seq<ConfigReport>
  {
    if partial.Some? then [partial.value] else []
  }

  /** The sweep over `configs`, each configuration handled by `configure`. */
  function Run(configure: Handler, configs: seq<Configuration>): Outcome
  {
    if configs == [] then Outcome([], false)
    else
      var before := Run(configure, configs[..|configs| - 1]);
      if before.aborted then before
      else
        match configure(configs[..|configs| - 1], configs[|configs| - 1])
        case Completed(report) => Outcome(before.reports + [report], false)
        case Failed(partial) => Outcome(before.reports + Reported(partial), true)
  }

  // ---------------------------------------------------------------------------
  // Stepping the two loops
  // ---------------------------------------------------------------------------

  /** One more configuration handled by a sweep that has not aborted. */
  lemma RunStep(configure: Handler, configs: seq<Configuration>, c: Configuration)
    requires !Run(configure, configs).aborted
    ensures Run(configure, configs + [c]) ==
      match configure(configs, c)
      case Completed(report) => Outcome(Run(configure, configs).reports + [report], false)
      case Failed(partial) => Outcome(Run(configure, configs).reports + Reported(partial), true)
  {
    assert (configs + [c])[..|configs|] == configs;
  }

  /** Once a sweep has aborted, later configurations change nothing. */
  lemma {:induction false} AbortedStays(configure: Handler, configs: seq<Configuration>, later: seq<Configuration>)
    requires Run(configure, configs).aborted
    ensures Run(configure, configs + later) == Run(configure, configs)
    decreases |later|
  {
    if later != [] {
      var shorter := later[..|later| - 1];
      AbortedStays(configure, configs, shorter);
      assert (configs + later)[..|configs + later| - 1] == configs + shorter;
    } else {
      assert configs + later == configs;
    }
  }

  /** The inner loop, one metadata entry further. */
  lemma PairsStep(m: MethodConfiguration, metadata: seq<Metadata>, j: int)
    requires 0 <= j < |metadata|
    ensures Pairs(m, metadata[..j + 1]) == Pairs(m, metadata[..j]) + [Configuration(m, metadata[j])]
  {
  }

  /** The outer loop, one method further. */
  lemma ConfigurationsStep(methods: seq<MethodConfiguration>, metadata: seq<Metadata>, i: int)
    requires 0 <= i < |methods|
    ensures Configurations(methods[..i + 1], metadata)
         == Configurations(methods[..i], metadata) + Pairs(methods[i], metadata)
  {
    assert methods[..i + 1][..i] == methods[..i];
  }

  // ---------------------------------------------------------------------------
  // Properties of the sweep
  // ---------------------------------------------------------------------------

  /** The configuration of method `i` and metadata entry `j` sits at position
      `i * |metadata| + j`: methods outer, metadata inner, all pairs once. */
  lemma {:induction false} ConfigurationsOrder(methods: seq<MethodConfiguration>, metadata: seq<Metadata>)
    ensures |Configurations(methods, metadata)| == |methods| * |metadata|
    ensures forall i, j :: 0 <= i < |methods| && 0 <= j < |metadata| ==> PlacedAt(methods, metadata, i, j)
  {
    ConfigurationsLength(methods, metadata);
    forall i, j | 0 <= i < |methods| && 0 <= j < |metadata|
      ensures PlacedAt(methods, metadata, i, j)
    {
      ConfigurationAt(methods, metadata, i, j);
    }
  }

  /** Position `i * |metadata| + j` exists and holds method `i` with metadata
      entry `j`. */
  predicate PlacedAt(methods: seq<MethodConfiguration>, metadata: seq<Metadata>, i: int, j: int)
    requires 0 <= i < |methods| && 0 <= j < |metadata|
  {
    var k := i * |metadata| + j;
    k < |methods| * |metadata|
    && k < |Configurations(methods, metadata)|
    && Configurations(methods, metadata)[k] == Configuration(methods[i], metadata[j])
  }

  lemma {:induction false} ConfigurationsLength(methods: seq<MethodConfiguration>, metadata: seq<Metadata>)
    ensures |Configurations(methods, metadata)| == |methods| * |metadata|
    decreases |methods|
  {
    if methods != [] {
      ConfigurationsLength(methods[..|methods| - 1], metadata);
      MulStep(|methods|, |metadata|);
    }
  }

  lemma {:induction false} ConfigurationAt(methods: seq<MethodConfiguration>, metadata: seq<Metadata>, i: int, j: int)
    requires 0 <= i < |methods| && 0 <= j < |metadata|
    ensures i * |metadata| + j < |methods| * |metadata|
    ensures i * |metadata| + j < |Configurations(methods, metadata)|
    ensures Configurations(methods, metadata)[i * |metadata| + j] == Configuration(methods[i], metadata[j])
    decreases |methods|
  {
    var n := |methods|;
    var m := |metadata|;
    var front := methods[..n - 1];
    ConfigurationsLength(front, metadata);
    ConfigurationsLength(methods, metadata);
    IndexBelow(i, j, n, m);
    if i < n - 1 {
      ConfigurationAt(front, metadata, i, j);
      assert front[i] == methods[i];
    } else {
      assert i * m == (n - 1) * m;
      assert Configurations(methods, metadata)[i * m + j] == Pairs(methods[n - 1], metadata)[j];
    }
  }

  lemma MulStep(n: int, m: int)
    ensures (n - 1) * m + m == n * m
  {
  }

  lemma IndexBelow(i: int, j: int, n: int, m: int)
    requires 0 <= i < n && 0 <= j < m
    ensures i * m + j < n * m
  {
    assert i * m + m == (i + 1) * m;
    assert (i + 1) * m <= n * m;
  }

  /** A sweep without an exception reports every configuration, in order. */
  lemma {:induction false} CompletedSweep(configure: Handler, configs: seq<Configuration>)
    requires !Run(configure, configs).aborted
    ensures |Run(configure, configs).reports| == |configs|
    ensures forall k :: 0 <= k < |configs| ==>
      configure(configs[..k], configs[k]) == Completed(Run(configure, configs).reports[k])
    decreases |configs|
  {
    if configs != [] {
      var front := configs[..|configs| - 1];
      CompletedSweep(configure, front);
      forall k | 0 <= k < |configs| - 1 ensures configs[k] == front[k] && configs[..k] == front[..k] {
      }
    }
  }

  /** A sweep aborts exactly when some configuration throws; the reports are
      then those of the sweep up to the first such configuration, which had
      not aborted, followed by the runs that one made, if any. */
  lemma {:induction false} AbortedSweep(configure: Handler, configs: seq<Configuration>)
    ensures Run(configure, configs).aborted <==> exists k :: 0 <= k < |configs| && configure(configs[..k], configs[k]).Failed?
    ensures Run(configure, configs).aborted ==>
      exists k :: 0 <= k < |configs| && configure(configs[..k], configs[k]).Failed?
        && !Run(configure, configs[..k]).aborted
        && Run(configure, configs).reports == Run(configure, configs[..k]).reports + Reported(configure(configs[..k], configs[k]).partial)
    decreases |configs|
  {
    if configs != [] {
      var last := |configs| - 1;
      var front := configs[..last];
      AbortedSweep(configure, front);
      forall k | 0 <= k < last ensures configs[k] == front[k] && configs[..k] == front[..k] {
      }
      if Run(configure, front).aborted {
        var k :| 0 <= k < |front| && configure(front[..k], front[k]).Failed?
          && !Run(configure, front[..k]).aborted
          && Run(configure, front).reports == Run(configure, front[..k]).reports + Reported(configure(front[..k], front[k]).partial);
        assert configs[..k] == front[..k];
      } else if configure(front, configs[last]).Failed? {
        assert configs[..last] == front;
      }
    }
  }

  // ---------------------------------------------------------------------------
  // Where the nested loops stand
  // ---------------------------------------------------------------------------

  /** The configurations visited before metadata entry `j` of method `i`. */
  function Visited(methods: seq<MethodConfiguration>, metadata: seq<Metadata>, i: int, j: int): seq<Configuration>
    requires 0 <= i < |methods| && 0 <= j <= |metadata|
  {
    Configurations(methods[..i], metadata) + Pairs(methods[i], metadata[..j])
  }

  lemma VisitedStep(methods: seq<MethodConfiguration>, metadata: seq<Metadata>, i: int, j: int)
    requires 0 <= i < |methods| && 0 <= j < |metadata|
    ensures Visited(methods, metadata, i, j + 1) == Visited(methods, metadata, i, j) + [Configuration(methods[i], metadata[j])]
  {
    PairsStep(methods[i], metadata, j);
  }

  lemma VisitedMethod(methods: seq<MethodConfiguration>, metadata: seq<Metadata>, i: int)
    requires 0 <= i < |methods|
    ensures Visited(methods, metadata, i, 0) == Configurations(methods[..i], metadata)
    ensures Visited(methods, metadata, i, |metadata|) == Configurations(methods[..i + 1], metadata)
  {
    assert metadata[..|metadata|] == metadata;
    ConfigurationsStep(methods, metadata, i);
  }

  /** Every configuration sequence of a prefix of the methods is a prefix of
      the whole sweep. */
  lemma {:induction false} ConfigurationsPrefix(methods: seq<MethodConfiguration>, metadata: seq<Metadata>, k: int)
    requires 0 <= k <= |methods|
    ensures Configurations(methods[..k], metadata) <= Configurations(methods, metadata)
    decreases |methods|
  {
    if k < |methods| {
      var front := methods[..|methods| - 1];
      ConfigurationsPrefix(front, metadata, k);
      assert front[..k] == methods[..k];
    } else {
      assert methods[..k] == methods;
    }
  }

  lemma VisitedPrefix(methods: seq<MethodConfiguration>, metadata: seq<Metadata>, i: int, j: int)
    requires 0 <= i < |methods| && 0 <= j <= |metadata|
    ensures Visited(methods, metadata, i, j) <= Configurations(methods, metadata)
  {
    VisitedMethod(methods, metadata, i);
    ConfigurationsPrefix(methods, metadata, i + 1);
    var all := Pairs(methods[i], metadata);
    assert Pairs(methods[i], metadata[..j]) == all[..j];
  }

  /** A sweep that aborted within a prefix of the configurations ends there. */
  lemma StopsAt(configure: Handler, configs: seq<Configuration>, prefix: seq<Configuration>)
    requires prefix <= configs && Run(configure, prefix).aborted
    ensures Run(configure, configs) == Run(configure, prefix)
  {
    assert configs == prefix + configs[|prefix|..];
    AbortedStays(configure, prefix, configs[|prefix|..]);
  }

  /** The inner loop's body when the configuration completes: its report is
      added and the sweep goes on to the next metadata entry. */
  lemma SweepContinues(configure: Handler, methods: seq<MethodConfiguration>,
                       metadata: seq<Metadata>, i: int, j: int, reports: seq<ConfigReport>, report: ConfigReport)
    requires 0 <= i < |methods| && 0 <= j < |metadata|
    requires Outcome(reports, false) == Run(configure, Visited(methods, metadata, i, j))
    requires configure(Visited(methods, metadata, i, j), Configuration(methods[i], metadata[j])) == Completed(report)
    ensures Outcome(reports + [report], false) == Run(configure, Visited(methods, metadata, i, j + 1))
  {
    VisitedStep(methods, metadata, i, j);
    RunStep(configure, Visited(methods, metadata, i, j), Configuration(methods[i], metadata[j]));
  }

  /** The inner loop's body when the configuration throws: the sweep ends
      there with whatever report was built. */
  lemma SweepStops(configure: Handler, methods: seq<MethodConfiguration>,
                   metadata: seq<Metadata>, i: int, j: int, reports: seq<ConfigReport>, partial: Option<ConfigReport>)
    requires 0 <= i < |methods| && 0 <= j < |metadata|
    requires Outcome(reports, false) == Run(configure, Visited(methods, metadata, i, j))
    requires configure(Visited(methods, metadata, i, j), Configuration(methods[i], metadata[j])) == Failed(partial)
    ensures Outcome(reports + Reported(partial), true) == Run(configure, Configurations(methods, metadata))
  {
    VisitedStep(methods, metadata, i, j);
    RunStep(configure, Visited(methods, metadata, i, j), Configuration(methods[i], metadata[j]));
    VisitedPrefix(methods, metadata, i, j + 1);
    StopsAt(configure, Configurations(methods, metadata), Visited(methods, metadata, i, j + 1));
  }

  /** Each configuration's report names that configuration. */
  ghost predicate Labelled(configure: Handler)
  {
    forall before, c ::
      (configure(before, c).Completed? ==> configure(before, c).report.config == c)
      && (configure(before, c).Failed? && configure(before, c).partial.Some? ==> configure(before, c).partial.value.config == c)
  }

  /** In a sweep without an exception the reports follow the configurations
      one for one. */
  lemma ReportsFollowConfigurations(configure: Handler, configs: seq<Configuration>)
    requires Labelled(configure) && !Run(configure, configs).aborted
    ensures |Run(configure, configs).reports| == |configs|
    ensures forall k :: 0 <= k < |configs| ==>
      Run(configure, configs).reports[k].config == configs[k]
      && configure(configs[..k], configs[k]) == Completed(Run(configure, configs).reports[k])
  {
    CompletedSweep(configure, configs);
  }

  /** Whether `r` is the report a configuration's outcome carries. */
  predicate Reports(outcome: ConfigOutcome, r: ConfigReport)
  {
    outcome == Completed(r) || outcome == Failed(Some(r))
  }
}
