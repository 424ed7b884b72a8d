/** The per-configuration experiment loop shared by `Runner.run`, `Main.main`
    and `ExecutionHelper.run`: advance the seed, shuffle the data set, split it
    into a training prefix and a testing suffix, optionally append the empty
    patterns to the testing part, train and test as the skip flags say, and on
    the last scheduled run let the outlier detector rewind the counter
    (`run -= removed`), which schedules that many further runs.

    Weka and the experiment helper are oracles: the shuffle is a function of the
    seed and the current order, and the detector answers from a finite script
    (0 once the script is used up), never more than the number of results
    currently recorded. */
module RunLoop {
  import opened JavaText
  import opened WekaData
  import opened Primes

  /** How a run's seed follows the previous one: `Primes.nextPrime(++seed)`
      from 1 (`Runner`, `Main`), or the number of `RandomHelper.update()` calls
      since `reset()` (`ExecutionHelper`). */
  datatype SeedScheme = NextPrimeSeeds | UpdateCount

  /** The settings the loop reads. `removeOutliers` is always true for
      `Runner` and `Main`; `loadsModel` says whether skipping training loads
      the classifier from its model file (`Runner`, `Main`) or not
      (`ExecutionHelper`). */
  datatype Policy = Policy(
    runs: int,
    split: real,
    skipTrain: bool,
    skipTest: bool,
    includeEmpty: bool,
    removeOutliers: bool,
    loadsModel: bool,
    saveModel: bool,
    seeds: SeedScheme)

  /** The collaborators: Weka's shuffle, the model file name of a seed, and
      the successive answers of the outlier detector. */
  datatype Oracles = Oracles(
    shuffle: (int, seq<Instance>) -> seq<Instance>,
    modelFile: int -> string,
    detections: seq<nat>)

  datatype Classifier = CopyOfBase | LoadedFrom(file: string)

  /** What one iteration did: the counter value it ran under, its seed, the
      shuffled data set, the two parts, the classifier used, whether it
      trained and tested, the detector's answer if asked, and the model file
      written. */
  datatype RunRecord = RunRecord(
    index: int,
    seed: int,
    order: seq<Instance>,
    training: seq<Instance>,
    testing: seq<Instance>,
    classifier: Classifier,
    trained: bool,
    tested: bool,
    removed: Option<nat>,
    savedTo: Option<string>)

  /** The loop's variables: the counter, the seed, the data set's current
      order, the number of recorded results, how many detector answers have
      been used, and the runs so far. */
  datatype LoopState = LoopState(
    run: int,
    seed: nat,
    data: seq<Instance>,
    history: int,
    asked: nat,
    records: seq<RunRecord>)

  /** The final state, and whether an exception ended the loop. */
  datatype Finished = Finished(state: LoopState, aborted: bool)

  function InitialSeed(scheme: SeedScheme): nat
  {
    match scheme
    case NextPrimeSeeds => 1
    case UpdateCount => 0
  }

  function NextSeed(scheme: SeedScheme, seed: nat): nat
  {
    match scheme
    case NextPrimeSeeds => NextPrime(seed + 1)
    case UpdateCount => seed + 1
  }

  /** `(int) Math.round(n * split)`. */
  function TrainingSize(n: nat, split: real): int
  {
    LongToInt(MathRound(Scaled(n, split)))
  }

  /** `n * split`; a split in `[0, 1]` keeps it within `[0, n]`. */
  function Scaled(n: nat, split: real): (x: real)
    ensures 0.0 <= split <= 1.0 ==> 0.0 <= x <= n as real
  {
    var a := n as real;
    assert 0.0 <= split <= 1.0 ==> a - a * split == a * (1.0 - split);
    a * split
  }

  /** The detector's answer: the next scripted value, capped at the number of
      recorded results. */
  function Answer(script: seq<nat>, asked: nat, recorded: nat): nat
  {
    if asked < |script| then Min(script[asked], recorded) else 0
  }

  function EmptyPart(p: Policy, empties: seq<Instance>): seq<Instance>
  {
    if p.includeEmpty then empties else []
  }

  /** The state before the first run: seed reset, result history cleared. */
  function Initial(p: Policy, data: seq<Instance>): LoopState
  {
    LoopState(0, InitialSeed(p.seeds), data, 0, 0, [])
  }

  /** Whether the run under counter value `st.run` asks the detector. */
  predicate Detects(p: Policy, st: LoopState)
  {
    !p.skipTest && p.removeOutliers && st.run == p.runs - 1
  }

  /** The number of recorded results once this run is tested. */
  function Recorded(p: Policy, st: LoopState): int
  {
    if p.skipTest then st.history else st.history + 1
  }

  /** How many runs this run's detection removes (0 when it does not ask). */
  function Removal(p: Policy, o: Oracles, st: LoopState): nat
  {
    if Detects(p, st) then Answer(o.detections, st.asked, Max0(Recorded(p, st))) else 0
  }

  /** The record of the run that follows state `st` and sees `order`. */
  function RecordOf(p: Policy, o: Oracles, empties: seq<Instance>, st: LoopState, order: seq<Instance>): RunRecord
    requires 0 <= TrainingSize(|order|, p.split) <= |order|
  {
    var seed := NextSeed(p.seeds, st.seed);
    var t := TrainingSize(|order|, p.split);
    RunRecord(st.run, seed, order, order[..t], order[t..] + EmptyPart(p, empties),
      if p.loadsModel && p.skipTrain then LoadedFrom(o.modelFile(seed)) else CopyOfBase,
      !p.skipTrain, !p.skipTest,
      if Detects(p, st) then Some(Removal(p, o, st)) else None,
      if p.saveModel then Some(o.modelFile(seed)) else None)
  }

  /** One iteration; `None` when `new Instances(dataSet, first, toCopy)`
      throws because the training size is negative or exceeds the data set. */
  function Iterate(p: Policy, o: Oracles, empties: seq<Instance>, st: LoopState): (r: Option<LoopState>)
    ensures r.Some? ==> r.value.asked == st.asked + 1 || (r.value.asked == st.asked && r.value.run == st.run + 1)
    ensures r.Some? && st.asked >= |o.detections| ==> r.value.run == st.run + 1
  {
    var seed := NextSeed(p.seeds, st.seed);
    var order := o.shuffle(seed, st.data);
    var t := TrainingSize(|order|, p.split);
    if t < 0 || t > |order| then None
    else
      Some(LoopState(st.run - Removal(p, o, st) + 1, seed, order, Recorded(p, st) - Removal(p, o, st),
        if Detects(p, st) then st.asked + 1 else st.asked, st.records + [RecordOf(p, o, empties, st, order)]))
  }

  /** `for (run = …; run < runs; run++)` from state `st`. */
  function Loop(p: Policy, o: Oracles, empties: seq<Instance>, st: LoopState): Finished
    decreases Max0(|o.detections| - st.asked), p.runs - st.run
  {
    if st.run >= p.runs then Finished(st, false)
    else
      match Iterate(p, o, empties, st)
      case None => Finished(st, true)
      case Some(next) => Loop(p, o, empties, next)
  }

  /** The state one iteration reaches, given its seed and its order. */
  lemma IterateIs(p: Policy, o: Oracles, empties: seq<Instance>, st: LoopState, seed: int, order: seq<Instance>, next: LoopState)
    requires seed == NextSeed(p.seeds, st.seed) && order == o.shuffle(seed, st.data)
    requires 0 <= TrainingSize(|order|, p.split) <= |order|
    requires next.run == st.run - Removal(p, o, st) + 1 && next.seed == seed && next.data == order
    requires next.history == Recorded(p, st) - Removal(p, o, st)
    requires next.asked == (if Detects(p, st) then st.asked + 1 else st.asked)
    requires next.records == st.records + [RecordOf(p, o, empties, st, order)]
    ensures Iterate(p, o, empties, st) == Some(next)
  {
  }

  /** The runs of one configuration, from a fresh seed and an empty result
      history. */
  method RunConfiguration(p: Policy, o: Oracles, empties: seq<Instance>, dataSet: seq<Instance>)
    returns (records: seq<RunRecord>, aborted: bool)
    ensures records == Runs(p, o, empties, dataSet)
    ensures aborted == Aborted(p, o, empties, dataSet)
  {
    var run := 0;
    var seed := InitialSeed(p.seeds);
    var data := dataSet;
    var history := 0;
    var asked := 0;
    records := [];
    while run < p.runs
      invariant Loop(p, o, empties, LoopState(run, seed, data, history, asked, records))
             == Loop(p, o, empties, Initial(p, dataSet))
      decreases Max0(|o.detections| - asked), p.runs - run
    {
      ghost var before := LoopState(run, seed, data, history, asked, records);
      seed := NextSeed(p.seeds, seed);
      data := o.shuffle(seed, data);
      var trainingSize := TrainingSize(|data|, p.split);
      if trainingSize < 0 || trainingSize > |data| {
        return records, true;
      }
      var training := data[..trainingSize];
      var testing := data[trainingSize..];
      if p.includeEmpty {
        testing := testing + empties;
      } else {
        assert testing == testing + EmptyPart(p, empties);
      }
      var file := o.modelFile(seed);
      var classifier := if p.loadsModel && p.skipTrain then LoadedFrom(file) else CopyOfBase;
      var count, removed;
      count, history, asked, removed := TestStep(p, o, before, run, history, asked);
      var saved := if p.saveModel then Some(file) else None;
      var record := RunRecord(run, seed, data, training, testing, classifier, !p.skipTrain, !p.skipTest, removed, saved);
      assert record == RecordOf(p, o, empties, before, data);
      records := records + [record];
      run := run - count;
      run := run + 1;
      IterateIs(p, o, empties, before, seed, data, LoopState(run, seed, data, history, asked, records));
    }
    return records, false;
  }

  /** The testing part of a run: count the result, and under the last
      scheduled counter value ask the detector how many results it removes. */
  method TestStep(p: Policy, o: Oracles, ghost st: LoopState, run: int, history: int, asked: nat)
    returns (count: nat, newHistory: int, newAsked: nat, removed: Option<nat>)
    requires run == st.run && history == st.history && asked == st.asked
    ensures count == Removal(p, o, st) && newHistory == Recorded(p, st) - count
    ensures newAsked == (if Detects(p, st) then asked + 1 else asked)
    ensures removed == (if Detects(p, st) then Some(count) else None)
  {
    count, newHistory, newAsked, removed := 0, history, asked, None;
    if !p.skipTest {
      newHistory := newHistory + 1;
      if p.removeOutliers && run == p.runs - 1 {
        count := Answer(o.detections, asked, Max0(newHistory));
        newAsked := asked + 1;
        newHistory := newHistory - count;
        removed := Some(count);
      }
    }
  }

  // ---------------------------------------------------------------------------
  // The invariant of the loop
  // ---------------------------------------------------------------------------

  function RemovedBy(r: RunRecord): nat
  {
    if r.removed.Some? then r.removed.value else 0
  }

  /** The total the detector removed over `records`. */
  function Removed(records: seq<RunRecord>): nat
  {
    if records == [] then 0 else Removed(records[..|records| - 1]) + RemovedBy(records[|records| - 1])
  }

  lemma {:induction false} RemovedAppend(a: seq<RunRecord>, b: seq<RunRecord>)
    ensures Removed(a + b) == Removed(a) + Removed(b)
    decreases |b|
  {
    if b == [] {
      assert a + b == a;
    } else {
      var c := b[..|b| - 1];
      var ab := a + b;
      assert ab[..|ab| - 1] == a + c;
      assert ab[|ab| - 1] == b[|b| - 1];
      RemovedAppend(a, c);
    }
  }

  /** The counter is the number of runs minus the number removed; it stays
      within `0 ..= max(runs, 0)`, and the history holds one result per
      counted run when testing. */
  predicate Counter(p: Policy, st: LoopState)
  {
    0 <= st.run <= Max0(p.runs)
    && st.run == |st.records| - Removed(st.records)
    && st.history == (if p.skipTest then 0 else st.run)
  }

  /** Each run's counter value is its position minus what was removed before it. */
  predicate Indexes(records: seq<RunRecord>)
  {
    forall j :: 0 <= j < |records| ==> records[j].index == j - Removed(records[..j])
  }

  function SeedBefore(p: Policy, records: seq<RunRecord>, j: int): int
    requires 0 <= j <= |records|
  {
    if j == 0 then InitialSeed(p.seeds) else records[j - 1].seed
  }

  /** Run `j`'s seed follows the seed before it. */
  predicate SeedStep(p: Policy, records: seq<RunRecord>, j: int)
    requires 0 <= j < |records|
  {
    SeedBefore(p, records, j) >= 0 && records[j].seed == NextSeed(p.seeds, SeedBefore(p, records, j))
  }

  predicate SeedChain(p: Policy, st: LoopState)
  {
    (forall j :: 0 <= j < |st.records| ==> SeedStep(p, st.records, j))
    && st.seed == SeedBefore(p, st.records, |st.records|)
  }

  function OrderBefore(dataSet: seq<Instance>, records: seq<RunRecord>, j: int): seq<Instance>
    requires 0 <= j <= |records|
  {
    if j == 0 then dataSet else records[j - 1].order
  }

  /** Run `j` shuffles the order the run before it left. */
  predicate OrderStep(o: Oracles, dataSet: seq<Instance>, records: seq<RunRecord>, j: int)
    requires 0 <= j < |records|
  {
    records[j].order == o.shuffle(records[j].seed, OrderBefore(dataSet, records, j))
  }

  predicate OrderChain(o: Oracles, dataSet: seq<Instance>, st: LoopState)
  {
    (forall j :: 0 <= j < |st.records| ==> OrderStep(o, dataSet, st.records, j))
    && st.data == OrderBefore(dataSet, st.records, |st.records|)
  }

  /** What every run does, as the loop body promises. */
  predicate RecordOk(p: Policy, o: Oracles, empties: seq<Instance>, r: RunRecord)
  {
    var t := TrainingSize(|r.order|, p.split);
    0 <= r.index < p.runs
    && 0 <= t <= |r.order|
    && r.training == r.order[..t]
    && r.testing == r.order[t..] + EmptyPart(p, empties)
    && r.classifier == (if p.loadsModel && p.skipTrain then LoadedFrom(o.modelFile(r.seed)) else CopyOfBase)
    && r.trained == !p.skipTrain
    && r.tested == !p.skipTest
    && r.savedTo == (if p.saveModel then Some(o.modelFile(r.seed)) else None)
    && (r.removed.Some? <==> !p.skipTest && p.removeOutliers && r.index == p.runs - 1)
    && (r.removed.Some? ==> r.removed.value <= p.runs)
  }

  predicate RecordsOk(p: Policy, o: Oracles, empties: seq<Instance>, records: seq<RunRecord>)
  {
    forall j :: 0 <= j < |records| ==> RecordOk(p, o, empties, records[j])
  }

  lemma IterateCounter(p: Policy, o: Oracles, empties: seq<Instance>, st: LoopState)
    requires Counter(p, st) && st.run < p.runs && Iterate(p, o, empties, st).Some?
    ensures Counter(p, Iterate(p, o, empties, st).value)
    ensures var last := Iterate(p, o, empties, st).value.records[|st.records|];
      last.index == st.run && 0 <= last.index < p.runs && (last.removed.Some? ==> last.removed.value <= p.runs)
  {
    var next := Iterate(p, o, empties, st).value;
    var last := next.records[|st.records|];
    assert next.records == st.records + [last];
    assert next.records[..|next.records| - 1] == st.records;
    assert Removed(next.records) == Removed(st.records) + RemovedBy(last);
  }

  lemma IterateIndexes(p: Policy, o: Oracles, empties: seq<Instance>, st: LoopState)
    requires Counter(p, st) && Indexes(st.records) && st.run < p.runs
    requires Iterate(p, o, empties, st).Some?
    ensures Indexes(Iterate(p, o, empties, st).value.records)
  {
    var next := Iterate(p, o, empties, st).value;
    var n := |st.records|;
    assert next.records == st.records + [next.records[n]];
    assert next.records[n].index == st.run;
    forall j | 0 <= j < |next.records|
      ensures next.records[j].index == j - Removed(next.records[..j])
    {
      assert next.records[..j] == st.records[..j];
      if j < n {
        assert next.records[j] == st.records[j];
      }
    }
  }

  lemma IterateChains(p: Policy, o: Oracles, empties: seq<Instance>, dataSet: seq<Instance>, st: LoopState)
    requires SeedChain(p, st) && OrderChain(o, dataSet, st) && Iterate(p, o, empties, st).Some?
    ensures SeedChain(p, Iterate(p, o, empties, st).value)
    ensures OrderChain(o, dataSet, Iterate(p, o, empties, st).value)
  {
    var next := Iterate(p, o, empties, st).value;
    var n := |st.records|;
    assert next.records == st.records + [next.records[n]];
    forall j | 0 <= j < |next.records|
      ensures SeedStep(p, next.records, j) && OrderStep(o, dataSet, next.records, j)
    {
      if j < n {
        assert SeedStep(p, st.records, j) && OrderStep(o, dataSet, st.records, j);
        assert next.records[j] == st.records[j];
        if j > 0 {
          assert next.records[j - 1] == st.records[j - 1];
        }
      }
    }
  }

  lemma IterateRecords(p: Policy, o: Oracles, empties: seq<Instance>, st: LoopState)
    requires Counter(p, st) && RecordsOk(p, o, empties, st.records) && st.run < p.runs
    requires Iterate(p, o, empties, st).Some?
    ensures RecordsOk(p, o, empties, Iterate(p, o, empties, st).value.records)
  {
    var next := Iterate(p, o, empties, st).value;
    var order := o.shuffle(NextSeed(p.seeds, st.seed), st.data);
    var last := RecordOf(p, o, empties, st, order);
    assert next.records == st.records + [last];
    IterateCounter(p, o, empties, st);
    RecordOfOk(p, o, empties, st, order);
    RecordsOkAppend(p, o, empties, st.records, last);
  }

  /** The record a run writes does what the loop body promises. */
  lemma RecordOfOk(p: Policy, o: Oracles, empties: seq<Instance>, st: LoopState, order: seq<Instance>)
    requires 0 <= TrainingSize(|order|, p.split) <= |order| && 0 <= st.run < p.runs
    requires Detects(p, st) ==> Removal(p, o, st) <= p.runs
    ensures RecordOk(p, o, empties, RecordOf(p, o, empties, st, order))
  {
  }

  lemma RecordsOkAppend(p: Policy, o: Oracles, empties: seq<Instance>, records: seq<RunRecord>, r: RunRecord)
    requires RecordsOk(p, o, empties, records) && RecordOk(p, o, empties, r)
    ensures RecordsOk(p, o, empties, records + [r])
  {
    var all := records + [r];
    assert forall j :: 0 <= j < |records| ==> all[j] == records[j];
    assert all[|records|] == r;
  }

  /** The counter laws hold in every state the loop reaches, and a loop that
      was not interrupted ends with the counter at `max(runs, 0)`. */
  lemma {:induction false} LoopCounter(p: Policy, o: Oracles, empties: seq<Instance>, st: LoopState)
    requires Counter(p, st)
    ensures var f := Loop(p, o, empties, st);
      Counter(p, f.state) && (!f.aborted ==> f.state.run == Max0(p.runs))
    decreases Max0(|o.detections| - st.asked), p.runs - st.run
  {
    if st.run < p.runs {
      var r := Iterate(p, o, empties, st);
      if r.Some? {
        IterateCounter(p, o, empties, st);
        LoopCounter(p, o, empties, r.value);
      }
    }
  }

  lemma {:induction false} LoopIndexes(p: Policy, o: Oracles, empties: seq<Instance>, st: LoopState)
    requires Counter(p, st) && Indexes(st.records)
    ensures Indexes(Loop(p, o, empties, st).state.records)
    decreases Max0(|o.detections| - st.asked), p.runs - st.run
  {
    if st.run < p.runs {
      var r := Iterate(p, o, empties, st);
      if r.Some? {
        IterateCounter(p, o, empties, st);
        IterateIndexes(p, o, empties, st);
        LoopIndexes(p, o, empties, r.value);
        assert Loop(p, o, empties, st) == Loop(p, o, empties, r.value);
      }
    }
  }

  lemma {:induction false} LoopChains(p: Policy, o: Oracles, empties: seq<Instance>, dataSet: seq<Instance>, st: LoopState)
    requires SeedChain(p, st) && OrderChain(o, dataSet, st)
    ensures SeedChain(p, Loop(p, o, empties, st).state) && OrderChain(o, dataSet, Loop(p, o, empties, st).state)
    decreases Max0(|o.detections| - st.asked), p.runs - st.run
  {
    if st.run < p.runs {
      var r := Iterate(p, o, empties, st);
      if r.Some? {
        IterateChains(p, o, empties, dataSet, st);
        LoopChains(p, o, empties, dataSet, r.value);
      }
    }
  }

  lemma {:induction false} LoopRecords(p: Policy, o: Oracles, empties: seq<Instance>, st: LoopState)
    requires Counter(p, st) && RecordsOk(p, o, empties, st.records)
    ensures RecordsOk(p, o, empties, Loop(p, o, empties, st).state.records)
    decreases Max0(|o.detections| - st.asked), p.runs - st.run
  {
    if st.run < p.runs {
      var r := Iterate(p, o, empties, st);
      if r.Some? {
        IterateCounter(p, o, empties, st);
        IterateRecords(p, o, empties, st);
        LoopRecords(p, o, empties, r.value);
        assert Loop(p, o, empties, st) == Loop(p, o, empties, r.value);
      }
    }
  }

  /** The state a configuration's loop ends in. */
  function FinalState(p: Policy, o: Oracles, empties: seq<Instance>, dataSet: seq<Instance>): LoopState
  {
    Loop(p, o, empties, Initial(p, dataSet)).state
  }

  /** The runs of a configuration, in order. */
  function Runs(p: Policy, o: Oracles, empties: seq<Instance>, dataSet: seq<Instance>): seq<RunRecord>
  {
    FinalState(p, o, empties, dataSet).records
  }

  /** Whether an exception ended the configuration's loop. */
  function Aborted(p: Policy, o: Oracles, empties: seq<Instance>, dataSet: seq<Instance>): bool
  {
    Loop(p, o, empties, Initial(p, dataSet)).aborted
  }

  lemma ConfigCounter(p: Policy, o: Oracles, empties: seq<Instance>, dataSet: seq<Instance>)
    ensures Counter(p, FinalState(p, o, empties, dataSet)) && Indexes(Runs(p, o, empties, dataSet))
    ensures !Aborted(p, o, empties, dataSet) ==> FinalState(p, o, empties, dataSet).run == Max0(p.runs)
  {
    LoopCounter(p, o, empties, Initial(p, dataSet));
    LoopIndexes(p, o, empties, Initial(p, dataSet));
  }

  lemma ConfigChains(p: Policy, o: Oracles, empties: seq<Instance>, dataSet: seq<Instance>)
    ensures SeedChain(p, FinalState(p, o, empties, dataSet))
    ensures OrderChain(o, dataSet, FinalState(p, o, empties, dataSet))
  {
    LoopChains(p, o, empties, dataSet, Initial(p, dataSet));
  }

  lemma ConfigRecords(p: Policy, o: Oracles, empties: seq<Instance>, dataSet: seq<Instance>)
    ensures RecordsOk(p, o, empties, Runs(p, o, empties, dataSet))
  {
    LoopRecords(p, o, empties, Initial(p, dataSet));
  }

  // ---------------------------------------------------------------------------
  // How many runs there are
  // ---------------------------------------------------------------------------

  /** A configuration that is not interrupted runs `max(runs, 0)` times plus
      every run the detector removed. */
  lemma RunCount(p: Policy, o: Oracles, empties: seq<Instance>, dataSet: seq<Instance>)
    requires !Aborted(p, o, empties, dataSet)
    ensures |Runs(p, o, empties, dataSet)| == Max0(p.runs) + Removed(Runs(p, o, empties, dataSet))
  {
    ConfigCounter(p, o, empties, dataSet);
  }

  /** The detector is consulted only on a tested run whose counter is
      `runs - 1`, when outlier removal is on, and it then always is; it never
      removes more than `runs` results. */
  lemma DetectionOnlyAtLastIndex(p: Policy, o: Oracles, empties: seq<Instance>, dataSet: seq<Instance>, j: int)
    requires 0 <= j < |Runs(p, o, empties, dataSet)|
    ensures var r := Runs(p, o, empties, dataSet)[j];
      (r.removed.Some? <==> r.tested && p.removeOutliers && r.index == p.runs - 1)
      && (r.removed.Some? ==> r.removed.value <= p.runs)
  {
    ConfigRecords(p, o, empties, dataSet);
    assert RecordOk(p, o, empties, Runs(p, o, empties, dataSet)[j]);
  }

  /** With testing skipped, or outlier removal off, nothing is removed and an
      uninterrupted configuration runs exactly `runs` times (none if `runs`
      is not positive). */
  lemma RunsWithoutDetection(p: Policy, o: Oracles, empties: seq<Instance>, dataSet: seq<Instance>)
    requires p.skipTest || !p.removeOutliers
    ensures forall j :: 0 <= j < |Runs(p, o, empties, dataSet)| ==> Runs(p, o, empties, dataSet)[j].removed.None?
    ensures !Aborted(p, o, empties, dataSet) ==> |Runs(p, o, empties, dataSet)| == Max0(p.runs)
  {
    ConfigRecords(p, o, empties, dataSet);
    ConfigCounter(p, o, empties, dataSet);
    var rs := Runs(p, o, empties, dataSet);
    forall j | 0 <= j < |rs| ensures rs[j].removed.None? {
      assert RecordOk(p, o, empties, rs[j]);
    }
    NothingRemoved(rs);
  }

  lemma {:induction false} NothingRemoved(records: seq<RunRecord>)
    requires forall j :: 0 <= j < |records| ==> records[j].removed.None?
    ensures Removed(records) == 0
    decreases |records|
  {
    if records != [] {
      NothingRemoved(records[..|records| - 1]);
    }
  }

  /** With testing skipped no run is tested. */
  lemma SkipTestNeverTests(p: Policy, o: Oracles, empties: seq<Instance>, dataSet: seq<Instance>)
    requires p.skipTest
    ensures forall j :: 0 <= j < |Runs(p, o, empties, dataSet)| ==> !Runs(p, o, empties, dataSet)[j].tested
  {
    ConfigRecords(p, o, empties, dataSet);
    var rs := Runs(p, o, empties, dataSet);
    forall j | 0 <= j < |rs| ensures !rs[j].tested {
      assert RecordOk(p, o, empties, rs[j]);
    }
  }

  /** A removal of `R` runs is followed by exactly `R` further runs, when the
      detector removes nothing afterwards. */
  lemma RemovalAddsRuns(p: Policy, o: Oracles, empties: seq<Instance>, dataSet: seq<Instance>, i: int)
    requires !Aborted(p, o, empties, dataSet)
    requires 0 <= i < |Runs(p, o, empties, dataSet)| && Runs(p, o, empties, dataSet)[i].removed.Some?
    requires forall k :: i < k < |Runs(p, o, empties, dataSet)| ==> RemovedBy(Runs(p, o, empties, dataSet)[k]) == 0
    ensures |Runs(p, o, empties, dataSet)| == i + 1 + Runs(p, o, empties, dataSet)[i].removed.value
  {
    ConfigRecords(p, o, empties, dataSet);
    RunCount(p, o, empties, dataSet);
    ConfigCounter(p, o, empties, dataSet);
    var rs := Runs(p, o, empties, dataSet);
    assert RecordOk(p, o, empties, rs[i]);
    assert rs[i].index == i - Removed(rs[..i]);
    ExtraRuns(rs, p.runs, i);
  }

  /** In a run list that ends with the counter at `n`: after the run at
      `n - 1` that removed `R`, exactly `R` runs follow when none of them
      removes anything. */
  lemma ExtraRuns(rs: seq<RunRecord>, n: int, i: int)
    requires |rs| == n + Removed(rs)
    requires 0 <= i < |rs| && rs[i].removed.Some? && i - Removed(rs[..i]) == n - 1
    requires forall k :: i < k < |rs| ==> RemovedBy(rs[k]) == 0
    ensures |rs| == i + 1 + rs[i].removed.value
  {
    var tail := rs[i + 1..];
    forall k | 0 <= k < |tail| ensures RemovedBy(tail[k]) == 0 {
      assert tail[k] == rs[i + 1 + k];
    }
    NothingRemovedBy(tail);
    RemovedSplit(rs, i);
  }

  lemma RemovedSplit(rs: seq<RunRecord>, i: int)
    requires 0 <= i < |rs|
    ensures Removed(rs) == Removed(rs[..i]) + RemovedBy(rs[i]) + Removed(rs[i + 1..])
  {
    assert rs == rs[..i] + [rs[i]] + rs[i + 1..];
    RemovedAppend(rs[..i] + [rs[i]], rs[i + 1..]);
    RemovedAppend(rs[..i], [rs[i]]);
    assert Removed([rs[i]]) == RemovedBy(rs[i]) by {
      assert [rs[i]][..0] == [];
    }
  }

  lemma {:induction false} NothingRemovedBy(records: seq<RunRecord>)
    requires forall j :: 0 <= j < |records| ==> RemovedBy(records[j]) == 0
    ensures Removed(records) == 0
    decreases |records|
  {
    if records != [] {
      NothingRemovedBy(records[..|records| - 1]);
    }
  }

  // ---------------------------------------------------------------------------
  // Seeds
  // ---------------------------------------------------------------------------

  /** With `nextPrime(++seed)` from 1, run `j`'s seed is the least prime above
      the previous run's seed (or 2 for the first run): every seed is prime,
      the seeds strictly increase, and no prime is skipped. */
  lemma PrimeSeeds(p: Policy, o: Oracles, empties: seq<Instance>, dataSet: seq<Instance>, j: int)
    requires p.seeds == NextPrimeSeeds
    requires 0 <= j < |Runs(p, o, empties, dataSet)|
    ensures var rs := Runs(p, o, empties, dataSet);
      IsPrime(rs[j].seed) && SeedBefore(p, rs, j) < rs[j].seed
      && (j == 0 ==> rs[j].seed == 2)
      && forall q :: SeedBefore(p, rs, j) < q < rs[j].seed ==> !IsPrime(q)
  {
    ConfigChains(p, o, empties, dataSet);
    var rs := Runs(p, o, empties, dataSet);
    assert SeedStep(p, rs, j);
    if j == 0 {
      NextPrimeIs(2, 2);
    }
  }

  /** The seeds of the first five runs are 2, 3, 5, 7 and 11. */
  lemma FirstSeeds(p: Policy, o: Oracles, empties: seq<Instance>, dataSet: seq<Instance>)
    requires p.seeds == NextPrimeSeeds
    requires |Runs(p, o, empties, dataSet)| >= 5
    ensures var rs := Runs(p, o, empties, dataSet);
      rs[0].seed == 2 && rs[1].seed == 3 && rs[2].seed == 5 && rs[3].seed == 7 && rs[4].seed == 11
  {
    ConfigChains(p, o, empties, dataSet);
    var rs := Runs(p, o, empties, dataSet);
    assert SeedStep(p, rs, 0) && SeedStep(p, rs, 1) && SeedStep(p, rs, 2) && SeedStep(p, rs, 3) && SeedStep(p, rs, 4);
    FirstPrimes(p, rs);
  }

  lemma FirstPrimes(p: Policy, rs: seq<RunRecord>)
    requires p.seeds == NextPrimeSeeds && |rs| >= 5
    requires SeedStep(p, rs, 0) && SeedStep(p, rs, 1) && SeedStep(p, rs, 2) && SeedStep(p, rs, 3) && SeedStep(p, rs, 4)
    ensures rs[0].seed == 2 && rs[1].seed == 3 && rs[2].seed == 5 && rs[3].seed == 7 && rs[4].seed == 11
  {
    SmallNextPrimes();
  }

  /** The seeds strictly increase from run to run. */
  lemma {:induction false} SeedsIncrease(p: Policy, o: Oracles, empties: seq<Instance>, dataSet: seq<Instance>, i: int, j: int)
    requires 0 <= i < j < |Runs(p, o, empties, dataSet)|
    ensures Runs(p, o, empties, dataSet)[i].seed < Runs(p, o, empties, dataSet)[j].seed
    decreases j - i
  {
    ConfigChains(p, o, empties, dataSet);
    var rs := Runs(p, o, empties, dataSet);
    assert SeedStep(p, rs, j);
    if i < j - 1 {
      SeedsIncrease(p, o, empties, dataSet, i, j - 1);
    }
  }

  /** With `RandomHelper.update()`, run `j` uses the generator after `j + 1`
      updates since the reset. */
  lemma UpdateCountSeeds(p: Policy, o: Oracles, empties: seq<Instance>, dataSet: seq<Instance>, j: int)
    requires p.seeds == UpdateCount
    requires 0 <= j < |Runs(p, o, empties, dataSet)|
    ensures Runs(p, o, empties, dataSet)[j].seed == j + 1
  {
    ConfigChains(p, o, empties, dataSet);
    UpdateCountChain(p, FinalState(p, o, empties, dataSet), j);
  }

  lemma {:induction false} UpdateCountChain(p: Policy, st: LoopState, j: int)
    requires p.seeds == UpdateCount && SeedChain(p, st)
    requires 0 <= j < |st.records|
    ensures st.records[j].seed == j + 1
    decreases j
  {
    assert SeedStep(p, st.records, j);
    if j > 0 {
      UpdateCountChain(p, st, j - 1);
    }
  }

  // ---------------------------------------------------------------------------
  // Splits, empty patterns and model files
  // ---------------------------------------------------------------------------

  /** A Weka shuffle: a permutation of the rows it is given. */
  ghost predicate IsShuffle(o: Oracles)
  {
    forall seed, rows :: multiset(o.shuffle(seed, rows)) == multiset(rows)
  }

  /** Each run splits its shuffled data set into a training prefix of
      `(int) Math.round(n * split)` rows and the remaining suffix; the empty
      patterns, when included, are appended to the testing part only. */
  lemma SplitCoversDataSet(p: Policy, o: Oracles, empties: seq<Instance>, dataSet: seq<Instance>, j: int)
    requires 0 <= j < |Runs(p, o, empties, dataSet)|
    ensures var r := Runs(p, o, empties, dataSet)[j];
      |r.training| == TrainingSize(|r.order|, p.split)
      && r.training + r.testing == r.order + EmptyPart(p, empties)
      && r.training <= r.order
      && multiset(r.training) + multiset(r.testing) == multiset(r.order) + multiset(EmptyPart(p, empties))
  {
    ConfigRecords(p, o, empties, dataSet);
    var r := Runs(p, o, empties, dataSet)[j];
    assert RecordOk(p, o, empties, r);
    var t := TrainingSize(|r.order|, p.split);
    assert r.order == r.order[..t] + r.order[t..];
    assert r.training + r.testing == r.order + EmptyPart(p, empties);
  }

  /** Under a Weka shuffle every run's order is a permutation of the loaded
      data set, so each run's training and testing parts together hold every
      loaded row exactly once, plus the empty patterns when included. */
  lemma SplitIsPermutation(p: Policy, o: Oracles, empties: seq<Instance>, dataSet: seq<Instance>, j: int)
    requires IsShuffle(o)
    requires 0 <= j < |Runs(p, o, empties, dataSet)|
    ensures var r := Runs(p, o, empties, dataSet)[j];
      multiset(r.training) + multiset(r.testing) == multiset(dataSet) + multiset(EmptyPart(p, empties))
  {
    ConfigChains(p, o, empties, dataSet);
    OrderPermutation(o, dataSet, FinalState(p, o, empties, dataSet), j);
    SplitCoversDataSet(p, o, empties, dataSet, j);
  }

  lemma {:induction false} OrderPermutation(o: Oracles, dataSet: seq<Instance>, st: LoopState, j: int)
    requires IsShuffle(o) && OrderChain(o, dataSet, st)
    requires 0 <= j < |st.records|
    ensures multiset(st.records[j].order) == multiset(dataSet)
    decreases j
  {
    var before := OrderBefore(dataSet, st.records, j);
    assert OrderStep(o, dataSet, st.records, j);
    assert multiset(o.shuffle(st.records[j].seed, before)) == multiset(before);
    if j > 0 {
      OrderPermutation(o, dataSet, st, j - 1);
    }
  }

  /** Training happens iff it is not skipped; when skipping it loads the
      classifier, that classifier comes from the run's own model file, and a
      saved model goes to that same file. */
  lemma ModelFiles(p: Policy, o: Oracles, empties: seq<Instance>, dataSet: seq<Instance>, j: int)
    requires 0 <= j < |Runs(p, o, empties, dataSet)|
    ensures var r := Runs(p, o, empties, dataSet)[j];
      (r.trained <==> !p.skipTrain)
      && (r.classifier.LoadedFrom? <==> p.loadsModel && p.skipTrain)
      && (r.classifier.LoadedFrom? ==> r.classifier.file == o.modelFile(r.seed))
      && (r.savedTo.Some? <==> p.saveModel)
      && (r.savedTo.Some? ==> r.savedTo.value == o.modelFile(r.seed))
      && (r.classifier.LoadedFrom? && r.savedTo.Some? ==> r.savedTo.value == r.classifier.file)
  {
    ConfigRecords(p, o, empties, dataSet);
    assert RecordOk(p, o, empties, Runs(p, o, empties, dataSet)[j]);
  }

  // ---------------------------------------------------------------------------
  // Split sizes
  // ---------------------------------------------------------------------------

  /** A split in `[0, 1]` gives a training size within the data set, so the
      parts are always built when the data set fits in an `int`. */
  lemma TrainingSizeInRange(n: nat, split: real)
    requires n <= IntMax && 0.0 <= split <= 1.0
    ensures 0 <= TrainingSize(n, split) <= n
  {
    RoundedInRange(Scaled(n, split), n);
  }

  /** `(int) Math.round(x)` for `x` in `[0, n]`, `n` an `int`, lies in `[0, n]`. */
  lemma RoundedInRange(x: real, n: nat)
    requires n <= IntMax && 0.0 <= x <= n as real
    ensures 0 <= LongToInt(MathRound(x)) <= n
  {
    var k := Round(x);
    assert 0 <= k <= n by {
      assert k as real - 0.5 <= x < k as real + 0.5;
    }
    assert MathRound(x) == k;
    assert LongToInt(k) == k;
  }

  /** Under a Weka shuffle, with a split in `[0, 1]` and a data set that fits
      in an `int`, the parts are always built, so no run throws. */
  lemma ConfigNeverAborts(p: Policy, o: Oracles, empties: seq<Instance>, dataSet: seq<Instance>)
    requires IsShuffle(o) && 0.0 <= p.split <= 1.0 && |dataSet| <= IntMax
    ensures !Aborted(p, o, empties, dataSet)
  {
    LoopNeverAborts(p, o, empties, Initial(p, dataSet));
  }

  lemma {:induction false} LoopNeverAborts(p: Policy, o: Oracles, empties: seq<Instance>, st: LoopState)
    requires IsShuffle(o) && 0.0 <= p.split <= 1.0 && |st.data| <= IntMax
    ensures !Loop(p, o, empties, st).aborted
    decreases Max0(|o.detections| - st.asked), p.runs - st.run
  {
    if st.run < p.runs {
      var seed := NextSeed(p.seeds, st.seed);
      var order := o.shuffle(seed, st.data);
      assert multiset(order) == multiset(st.data);
      assert |order| == |multiset(order)| == |st.data|;
      TrainingSizeInRange(|order|, p.split);
      var next := Iterate(p, o, empties, st).value;
      assert next.data == order;
      LoopNeverAborts(p, o, empties, next);
    }
  }

  /** With the split fixed at 0.5 the training part has `(n + 1) / 2` rows and
      the testing part `n / 2`. */
  lemma HalfSplit(n: nat)
    requires n <= IntMax
    ensures TrainingSize(n, 0.5) == (n + 1) / 2
    ensures n - TrainingSize(n, 0.5) == n / 2
  {
    var k := (n + 1) / 2;
    var x := n as real * 0.5;
    assert Round(x) == k by {
      if n % 2 == 0 {
        assert n as real == 2.0 * (k as real);
        assert x + 0.5 == k as real + 0.5;
      } else {
        assert n as real == 2.0 * (k as real) - 1.0;
        assert x + 0.5 == k as real;
      }
    }
  }
}
