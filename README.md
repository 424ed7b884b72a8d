# AntiSpamWeka experiments, modelled in Dafny

AntiSpamWeka runs anti-spam classifier experiments. Each experiment is a
(method, data set) configuration. For each one the program does the following:

- It loads the data set: raw big-endian ham and spam files, merged, or a `data.arff` file.
- It optionally applies Weka's feature and class filters.
- It optionally builds a set of all-zero "empty patterns".
- It repeats a run a fixed number of times.

A run advances a seed, shuffles the data set, and splits it into a training
prefix and a testing suffix. The empty patterns go onto the testing suffix
only. The run then trains and/or tests the classifier, as the skip flags say.
On the last scheduled run an outlier detector may remove results. The program
then winds the loop counter back (`run -= removed`), so the removed runs are
made again.

There are three drivers of this loop:

- `Runner.run`: seeds `nextPrime(++seed)` from 1, the method's own split, and the model file named after the seed.
- `Main.main`: the same loop with the split fixed at 0.5.
- `ExecutionHelper.run`: seeds taken from an update counter, removal of outliers optional, a final-summary guard `numberOfRuns > 0`, and the total feature count read off the folder name.

The project models these pieces:

- the three drivers;
- the shared per-configuration loop;
- the helpers of `InputOutputHelper`: the model file name, the attribute list, the empty patterns, the metadata-file parser, the raw binary decoder, the ham/spam merge and the CSV writer;
- the folder list and the folder-name shortening of `DataSetHelper`.

The modules are:

- `JavaText`: the Java platform's text and number conversions that the program relies on.
- `Primes`: `Primes.nextPrime`, given by its documented result.
- `WekaData`: attributes, instances and data sets, as values.
- `InputOutput`: `InputOutputHelper`.
- `DataSetFolders`: `DataSetHelper`.
- `RunLoop`: the per-configuration loop. A `method` with the source's `while` loop is proved equal to a recursive function, and the loop's properties are lemmas about that function.
- `Sweep`: the methods-outer, data-sets-inner sweep that all three drivers share. An exception anywhere ends it.
- `Runner`, `MainProgram`, `Execution`: the three drivers. Each one is a nested-loop `method` proved equal to the sweep over its own configuration function.

Collaborators that the model cannot see are parameters:

- Weka's shuffle, its filters and its loaders;
- the outlier detector;
- the file system, given as file contents or as a yes/no answer.

## Model

| member | source | states |
|---|---|---|
| JavaText.IntToString | AntiSpamWeka/src/main/java/io/github/marcelovca90/helper/InputOutputHelper.java:65-67 | the decimal text of an int is non-empty and starts with `-` exactly when the number is negative |
| JavaText.NatToStringValue | AntiSpamWeka/src/main/java/io/github/marcelovca90/helper/InputOutputHelper.java:233 | the digits written for `n` denote `n` |
| JavaText.NatToStringInjective | AntiSpamWeka/src/main/java/io/github/marcelovca90/helper/InputOutputHelper.java:233 | two naturals with the same decimal text are equal, so feature names `x<i>` differ |
| JavaText.IntToStringChars | AntiSpamWeka/src/xyz/marcelo/helper/DataSetHelper.java:28 | a decimal rendering holds no character other than digits and `-` |
| JavaText.IntToStringInjective | AntiSpamWeka/src/main/java/io/github/marcelovca90/helper/InputOutputHelper.java:67 | two ints with the same decimal text are equal |
| JavaText.ParseInt | AntiSpamWeka/src/main/java/io/github/marcelovca90/helper/InputOutputHelper.java:151-152 | `Integer.parseInt` either refuses its input or yields a 32-bit int |
| JavaText.ParseIntToString | AntiSpamWeka/src/main/java/io/github/marcelovca90/helper/InputOutputHelper.java:151-152 | `parseInt` reads back the decimal text of every 32-bit int |
| JavaText.LastIndexOf | AntiSpamWeka/src/main/java/io/github/marcelovca90/helper/ExecutionHelper.java:97 | the result is the last index holding the character, and it is -1 exactly when the character is absent |
| JavaText.JoinFields | AntiSpamWeka/src/main/java/io/github/marcelovca90/helper/InputOutputHelper.java:149 | joining the comma fields of a line with commas gives the line back |
| JavaText.FieldsJoin | AntiSpamWeka/src/main/java/io/github/marcelovca90/helper/InputOutputHelper.java:198-203 | splitting a comma-joined list of comma-free names gives the names back |
| JavaText.FieldsAppend | AntiSpamWeka/src/main/java/io/github/marcelovca90/helper/InputOutputHelper.java:149 | the fields of `x,y` are the fields of `x` followed by those of `y` |
| JavaText.FieldsOfPrefix | AntiSpamWeka/src/main/java/io/github/marcelovca90/helper/InputOutputHelper.java:149-150 | a leading separator-free part is the first field |
| JavaText.StripTrailingEmpty | AntiSpamWeka/src/main/java/io/github/marcelovca90/helper/InputOutputHelper.java:149 | `split` drops exactly the trailing empty strings: the result is a prefix that ends in a non-empty field, and everything dropped is empty |
| JavaText.StripTrailingEmptyPrefix | AntiSpamWeka/src/main/java/io/github/marcelovca90/helper/InputOutputHelper.java:149 | more fields after a line never change the leading fields `split` returns |
| JavaText.ReplaceChar | AntiSpamWeka/src/main/java/io/github/marcelovca90/helper/InputOutputHelper.java:148 | a string without `~` is left unchanged, and no `~` remains when the replacement has none |
| JavaText.ReplaceCharAppend | AntiSpamWeka/src/main/java/io/github/marcelovca90/helper/InputOutputHelper.java:148 | replacing `~` works piecewise over a concatenation |
| JavaText.ReplaceAllAbsent | AntiSpamWeka/src/xyz/marcelo/helper/DataSetHelper.java:45 | a string in which the pattern does not occur is unchanged |
| JavaText.ReplaceAllFirst | AntiSpamWeka/src/xyz/marcelo/helper/DataSetHelper.java:45 | the first occurrence is the one replaced, and the replacement goes on after it |
| JavaText.ReplaceAllNotLonger | AntiSpamWeka/src/xyz/marcelo/helper/DataSetHelper.java:45 | replacing a text by one no longer never lengthens the string |
| JavaText.Truncate | AntiSpamWeka/src/main/java/io/github/marcelovca90/helper/InputOutputHelper.java:65-66 | the `(int)` cast rounds toward zero: it comes within one of `x`, on the side of zero |
| JavaText.JavaIntCast | AntiSpamWeka/src/main/java/io/github/marcelovca90/helper/InputOutputHelper.java:65-66 | `(int) x` is a 32-bit int, and it is the truncation whenever that fits |
| JavaText.MathRound | AntiSpamWeka/src/main/java/io/github/marcelovca90/main/Runner.java:117 | `Math.round` lies in the `long` range and is the nearest integer (ties up) away from the range's ends |
| JavaText.Round | AntiSpamWeka/src/main/java/io/github/marcelovca90/main/Runner.java:117 | the result is within one half of `x`, ties rounded up |
| JavaText.LongToInt | AntiSpamWeka/src/main/java/io/github/marcelovca90/main/Runner.java:117 | `(int)` of a `long` is a 32-bit int congruent to it modulo 2^32, and equal to it when it fits |
| Primes.NextPrime | AntiSpamWeka/src/main/java/io/github/marcelovca90/main/Runner.java:110 | `nextPrime(n)` is a prime that is at least `n`, with no prime between `n` and it |
| Primes.PrimeAtLeast | AntiSpamWeka/src/main/java/io/github/marcelovca90/main/Runner.java:110 | above every `n` there is a prime (the least divisor of n!+1), so the search for the next prime ends |
| Primes.NextPrimeIs | AntiSpamWeka/src/main/java/io/github/marcelovca90/main/Runner.java:110 | any prime at least `n` with no prime in between is `nextPrime(n)` |
| Primes.SmallNextPrimes | AntiSpamWeka/src/main/java/io/github/marcelovca90/main/Runner.java:110 | `nextPrime` of 2, 3, 4, 6 and 8 is 2, 3, 5, 7 and 11 |
| WekaData.Attributes | AntiSpamWeka/src/main/java/io/github/marcelovca90/helper/InputOutputHelper.java:229-236 | `n` features give `n + 1` attributes |
| WekaData.AttributeNamesDistinct | AntiSpamWeka/src/main/java/io/github/marcelovca90/helper/InputOutputHelper.java:229-236 | the names `x0 … x{n-1}, class` are pairwise distinct |
| InputOutput.ClassifierFilenamePercentages | AntiSpamWeka/src/main/java/io/github/marcelovca90/helper/InputOutputHelper.java:59-71 | for a split of `t` percent the name is `folder`, separator, class name, `_TRAIN=t`, `_TEST=100-t`, `_SEED=seed`, `.model`, in that order |
| InputOutput.ClassifierFilenameSeedInjective | AntiSpamWeka/src/main/java/io/github/marcelovca90/helper/InputOutputHelper.java:59-71 | equal model file names imply equal seeds |
| InputOutput.CreateAttributes | AntiSpamWeka/src/main/java/io/github/marcelovca90/helper/InputOutputHelper.java:229-236 | the loop builds numeric `x0 … x{n-1}`, then the nominal `class` attribute with values `HAM`, `SPAM` |
| InputOutput.CreateEmptyRows | AntiSpamWeka/src/main/java/io/github/marcelovca90/helper/InputOutputHelper.java:88-96 | `c` rows of the given class, each a fresh instance of missing values whose features the inner loop sets to 0.0 |
| InputOutput.CreateEmptyInstances | AntiSpamWeka/src/main/java/io/github/marcelovca90/helper/InputOutputHelper.java:73-131 | throws iff a count is negative (the capacity of `new Instances`); otherwise the set has the attributes of `createAttributes(f)` and the class index `f`, and its rows are the ham count of zero rows labelled ham, then the spam count labelled spam |
| InputOutput.LoadDataSetsMetadataFromFile | AntiSpamWeka/src/main/java/io/github/marcelovca90/helper/InputOutputHelper.java:133-161 | the read loop yields the entries of the lines, each entry once in first-insertion order, or the error of the first bad line; a leading `~` is expanded by the corrected, literal `ExpandHome` (see Findings; `ExpandHomeAgrees` says where it and the as-written `replaceAll` agree) |
| InputOutput.ParseLine | AntiSpamWeka/src/main/java/io/github/marcelovca90/helper/InputOutputHelper.java:143-155 | one line is skipped, parsed into an entry or refused, as the line parser says, with the corrected literal `~` expansion |
| InputOutput.EntriesErrorSticky | AntiSpamWeka/src/main/java/io/github/marcelovca90/helper/InputOutputHelper.java:149-152 | once a line is refused, later lines change nothing, because the exception ends the read |
| InputOutput.FirstOccurrencesSpec | AntiSpamWeka/src/main/java/io/github/marcelovca90/helper/InputOutputHelper.java:135-154 | the `LinkedHashSet` holds every added entry and nothing else, each once, ordered by first addition |
| InputOutput.CommentLineIgnored | AntiSpamWeka/src/main/java/io/github/marcelovca90/helper/InputOutputHelper.java:144 | an empty or `#` line anywhere in the file changes neither the entries nor the error |
| InputOutput.CommentEntriesIgnored | AntiSpamWeka/src/main/java/io/github/marcelovca90/helper/InputOutputHelper.java:144 | the same for the ordered list of entries before de-duplication |
| InputOutput.ParseFieldsRoundTrip | AntiSpamWeka/src/main/java/io/github/marcelovca90/helper/InputOutputHelper.java:149-152 | the fields of `folder,ham,spam`, for a comma-free folder and two ints, give that entry back |
| InputOutput.MetadataLineRoundTrip | AntiSpamWeka/src/main/java/io/github/marcelovca90/helper/InputOutputHelper.java:143-154 | a well-formed line (comma-free folder not starting with `#` or `~`, two ints) is read back as the entry it was written from |
| InputOutput.ExtraFieldsIgnored | AntiSpamWeka/src/main/java/io/github/marcelovca90/helper/InputOutputHelper.java:149-152 | fields after the third do not change what a line yields |
| InputOutput.MetadataErrorIsFirstRejected | AntiSpamWeka/src/main/java/io/github/marcelovca90/helper/InputOutputHelper.java:141-156 | the file is refused exactly when one of its lines is, and the error is that of the first refused line (a missing field or a non-int count) |
| InputOutput.ReplacementTextPlain | AntiSpamWeka/src/main/java/io/github/marcelovca90/helper/InputOutputHelper.java:148 | a replacement template without `\` and `$` stands for itself |
| InputOutput.ExpandHomeAgrees | AntiSpamWeka/src/main/java/io/github/marcelovca90/helper/InputOutputHelper.java:147-148 | for a home directory without `\` and `$`, the as-written `replaceAll` and the literal expansion read every line alike |
| InputOutput.ExpandLeadingHome | AntiSpamWeka/src/main/java/io/github/marcelovca90/helper/InputOutputHelper.java:147-148 | a line `~rest` without further `~` expands to the home text then `rest`, or, as written, to the template's text then `rest` |
| InputOutput.WindowsHomeTemplate | AntiSpamWeka/src/main/java/io/github/marcelovca90/helper/InputOutputHelper.java:148 | as a replacement template, `C:\Users\me` denotes `C:Usersme` |
| InputOutput.WindowsHomeAsWritten | AntiSpamWeka/src/main/java/io/github/marcelovca90/helper/InputOutputHelper.java:147-148 | as written, with home `C:\Users\me`, the line `~folder,0,0` names the folder `C:Usersme` + folder |
| InputOutput.WindowsHomeLiteral | AntiSpamWeka/src/main/java/io/github/marcelovca90/helper/InputOutputHelper.java:147-148 | with the literal expansion, the same line names `C:\Users\me` + folder |
| InputOutput.WindowsHomeLosesSeparators | AntiSpamWeka/src/main/java/io/github/marcelovca90/helper/InputOutputHelper.java:147-148 | `~\corpus,0,0` names `C:Usersme\corpus` as written and `C:\Users\me\corpus` as intended |
| InputOutput.BigEndianRoundTrip | AntiSpamWeka/src/main/java/io/github/marcelovca90/helper/InputOutputHelper.java:242-248 | reading the big-endian bytes of a number gives the number back |
| InputOutput.Int32Of | AntiSpamWeka/src/main/java/io/github/marcelovca90/helper/InputOutputHelper.java:242-248 | `ByteBuffer.getInt` on four bytes yields a 32-bit int |
| InputOutput.Int32RoundTrip | AntiSpamWeka/src/main/java/io/github/marcelovca90/helper/InputOutputHelper.java:242-248 | every 32-bit int written as four bytes reads back as itself |
| InputOutput.Group | AntiSpamWeka/src/main/java/io/github/marcelovca90/helper/InputOutputHelper.java:265-278 | the values fill rows of exactly `a` values, in order; what is left over, fewer than `a` values, is dropped |
| InputOutput.GroupFlatten | AntiSpamWeka/src/main/java/io/github/marcelovca90/helper/InputOutputHelper.java:265-278 | full rows followed by an incomplete tail group back into exactly those rows |
| InputOutput.RowsOf | AntiSpamWeka/src/main/java/io/github/marcelovca90/helper/InputOutputHelper.java:271-274 | one instance per row, with the row's values and the file's class |
| InputOutput.ReadValuesStep | AntiSpamWeka/src/main/java/io/github/marcelovca90/helper/InputOutputHelper.java:265-267 | one read overwrites the front of the 8-byte buffer with at most 8 bytes, and the double of the buffer is put |
| InputOutput.ReadStep | AntiSpamWeka/src/main/java/io/github/marcelovca90/helper/InputOutputHelper.java:265-267 | the read performed in the loop consumes `min(8, remaining)` bytes and yields the next value of the payload |
| InputOutput.PutValue | AntiSpamWeka/src/main/java/io/github/marcelovca90/helper/InputOutputHelper.java:267-277 | putting a value keeps the pending row shorter than `a`; a full row becomes one more instance; no value is lost |
| InputOutput.NoRoomFails | AntiSpamWeka/src/main/java/io/github/marcelovca90/helper/InputOutputHelper.java:263-267 | with no attribute, the first value overflows the empty `DoubleBuffer` |
| InputOutput.AllRowsRead | AntiSpamWeka/src/main/java/io/github/marcelovca90/helper/InputOutputHelper.java:265-280 | once the input is consumed, the rows added are exactly the full groups of the values read |
| InputOutput.ReadRows | AntiSpamWeka/src/main/java/io/github/marcelovca90/helper/InputOutputHelper.java:262-278 | the read loop yields the rows the payload's values make, or the buffer overflow |
| InputOutput.LoadRawInstances | AntiSpamWeka/src/main/java/io/github/marcelovca90/helper/InputOutputHelper.java:238-283 | the raw loader reads the two header ints, then the rows, as the decoder defines; the instance count is not used |
| InputOutput.ReadEncodedValues | AntiSpamWeka/src/main/java/io/github/marcelovca90/helper/InputOutputHelper.java:265-267 | the read loop gets back every 8-byte value written, whatever the buffer held |
| InputOutput.DecodeEncodeRaw | AntiSpamWeka/src/main/java/io/github/marcelovca90/helper/InputOutputHelper.java:238-283 | a raw file of `a` attributes and rows of `a` values decodes to `createAttributes(a)`, class index `a` and those rows, whatever instance count the header gives |
| InputOutput.LoadInstancesFromFile | AntiSpamWeka/src/main/java/io/github/marcelovca90/helper/InputOutputHelper.java:163-181 | both files are decoded and merged, or the first failure is returned |
| InputOutput.LoadedHamThenSpam | AntiSpamWeka/src/main/java/io/github/marcelovca90/helper/InputOutputHelper.java:163-181 | the merged set has the ham set's attributes and class index and holds all ham rows, then all spam rows |
| InputOutput.HeaderNames | AntiSpamWeka/src/main/java/io/github/marcelovca90/helper/InputOutputHelper.java:198-203 | one column name per attribute |
| InputOutput.SaveInstancesToFile | AntiSpamWeka/src/main/java/io/github/marcelovca90/helper/InputOutputHelper.java:188-218 | the file is the comma-joined header followed by exactly one line per instance, in order |
| InputOutput.LoadedHeaderRoundTrip | AntiSpamWeka/src/main/java/io/github/marcelovca90/helper/InputOutputHelper.java:198-204 | the header of a loaded data set splits back into `x0 … x{n-1}, class` |
| DataSetFolders.Folders | AntiSpamWeka/src/xyz/marcelo/helper/DataSetHelper.java:13-28 | there are 4 × 3 × 7 = 84 folders |
| DataSetFolders.GetFolders | AntiSpamWeka/src/xyz/marcelo/helper/DataSetHelper.java:19-31 | an `IOException` exactly when the base is missing or is not a directory; otherwise the triple loop yields the 84 folders in order |
| DataSetFolders.FoldersOrder | AntiSpamWeka/src/xyz/marcelo/helper/DataSetHelper.java:25-28 | entry `21d + 7s + f` is `base/dataSet[d]/statMethod[s]/amount[f]`: data set outermost, amount innermost |
| DataSetFolders.FolderPathFields | AntiSpamWeka/src/xyz/marcelo/helper/DataSetHelper.java:28 | a folder splits into the base's segments, then the data set, the method and the amount, which parses back |
| DataSetFolders.FolderPathInjective | AntiSpamWeka/src/xyz/marcelo/helper/DataSetHelper.java:28 | equal folder paths come from the same data set, method and amount |
| DataSetFolders.FoldersDistinct | AntiSpamWeka/src/xyz/marcelo/helper/DataSetHelper.java:25-28 | the 84 folders are pairwise distinct |
| DataSetFolders.ShortenFolderNameTo | AntiSpamWeka/src/xyz/marcelo/helper/DataSetHelper.java:38-49 | the loop over the original name's segments rewrites each qualifying segment everywhere, in order; a negative length fails at the first qualifying segment |
| DataSetFolders.ShortenFolderName | AntiSpamWeka/src/xyz/marcelo/helper/DataSetHelper.java:33-36 | the one-argument overload is the two-argument one with length 4, and it never fails |
| DataSetFolders.ShortenedFailsOnlyBelowZero | AntiSpamWeka/src/xyz/marcelo/helper/DataSetHelper.java:43-45 | shortening fails exactly when the length is negative and some segment is not a data-set name |
| DataSetFolders.ShortenSegmentsFails | AntiSpamWeka/src/xyz/marcelo/helper/DataSetHelper.java:41-46 | the same, for any list of segments |
| DataSetFolders.ShortenedUnchanged | AntiSpamWeka/src/xyz/marcelo/helper/DataSetHelper.java:40-48 | a name none of whose segments is a long non-data-set segment is returned unchanged |
| DataSetFolders.ShortenedNotLonger | AntiSpamWeka/src/xyz/marcelo/helper/DataSetHelper.java:45 | shortening never lengthens a name |
| DataSetFolders.ShortenedLeadingSegment | AntiSpamWeka/src/xyz/marcelo/helper/DataSetHelper.java:40-46 | a long leading segment and all its occurrences become its first `maxLength` characters and `~`, then the other segments are processed |
| RunLoop.Scaled | AntiSpamWeka/src/main/java/io/github/marcelovca90/main/Runner.java:117 | `N * split`, for a split in [0, 1], lies in [0, N] |
| RunLoop.Iterate | AntiSpamWeka/src/main/java/io/github/marcelovca90/main/Runner.java:107-168 | each iteration either asks the detector or advances the counter by one |
| RunLoop.RunConfiguration | AntiSpamWeka/src/main/java/io/github/marcelovca90/main/Runner.java:102-168 | the loop with its `run -= removed` rewind makes exactly the runs of the loop's definition, and aborts exactly when it does |
| RunLoop.TestStep | AntiSpamWeka/src/main/java/io/github/marcelovca90/main/Runner.java:151-163 | a tested run records one result; under the last scheduled counter value it asks the detector once and removes its answer |
| RunLoop.LoopCounter | AntiSpamWeka/src/main/java/io/github/marcelovca90/main/Runner.java:107-162 | the counter equals the runs made minus those removed and stays in [0, runs]; an uninterrupted loop ends at `max(runs, 0)` |
| RunLoop.LoopIndexes | AntiSpamWeka/src/main/java/io/github/marcelovca90/main/Runner.java:107-162 | each run's counter value is its position minus the removals before it |
| RunLoop.LoopChains | AntiSpamWeka/src/main/java/io/github/marcelovca90/main/Runner.java:110-113 | each run's seed follows the previous seed, and each run shuffles the order the previous run left |
| RunLoop.LoopRecords | AntiSpamWeka/src/main/java/io/github/marcelovca90/main/Runner.java:107-168 | every run's split, classifier, training, testing, detection and saving follow the loop body |
| RunLoop.ConfigCounter | AntiSpamWeka/src/main/java/io/github/marcelovca90/main/Runner.java:102-162 | the counter laws hold for a configuration started with a fresh seed and an empty history |
| RunLoop.ConfigChains | AntiSpamWeka/src/main/java/io/github/marcelovca90/main/Runner.java:102-113 | the seed and order chains hold from the reset seed and the loaded order |
| RunLoop.ConfigRecords | AntiSpamWeka/src/main/java/io/github/marcelovca90/main/Runner.java:107-168 | every run of a configuration is one the loop body makes |
| RunLoop.RunCount | AntiSpamWeka/src/main/java/io/github/marcelovca90/main/Runner.java:107-162 | an uninterrupted configuration makes `max(runs, 0)` runs plus every run the detector removed |
| RunLoop.DetectionOnlyAtLastIndex | AntiSpamWeka/src/main/java/io/github/marcelovca90/main/Runner.java:151-162 | the detector is asked exactly on tested runs with outlier removal on and counter `runs - 1`, and removes at most `runs` |
| RunLoop.RunsWithoutDetection | AntiSpamWeka/src/main/java/io/github/marcelovca90/helper/ExecutionHelper.java:186-198 | with testing skipped or outlier removal off, nothing is removed and exactly `max(runs, 0)` runs are made |
| RunLoop.SkipTestNeverTests | AntiSpamWeka/src/main/java/io/github/marcelovca90/main/Runner.java:151 | with testing skipped no run is tested |
| RunLoop.RemovalAddsRuns | AntiSpamWeka/src/main/java/io/github/marcelovca90/main/Runner.java:107-162 | a removal of `R` is followed by exactly `R` further runs when later detections remove nothing |
| RunLoop.ExtraRuns | AntiSpamWeka/src/main/java/io/github/marcelovca90/main/Runner.java:161-162 | the same counting argument over any run list that ends with the counter at `runs` |
| RunLoop.PrimeSeeds | AntiSpamWeka/src/main/java/io/github/marcelovca90/main/Runner.java:102-110 | run `j`'s seed is prime, is the least prime above the previous seed, and is 2 for the first run |
| RunLoop.FirstSeeds | AntiSpamWeka/src/main/java/io/github/marcelovca90/main/Runner.java:102-110 | the first five seeds are 2, 3, 5, 7, 11 |
| RunLoop.SeedsIncrease | AntiSpamWeka/src/main/java/io/github/marcelovca90/main/Runner.java:110 | seeds strictly increase along a configuration's runs |
| RunLoop.UpdateCountSeeds | AntiSpamWeka/src/main/java/io/github/marcelovca90/helper/ExecutionHelper.java:88-149 | with the update counter, run `j` uses the generator after `j + 1` updates since the reset |
| RunLoop.SplitCoversDataSet | AntiSpamWeka/src/main/java/io/github/marcelovca90/main/Runner.java:116-124 | training is the prefix of `(int) Math.round(N*split)` rows, and training then testing is the shuffled set followed by the empty patterns, which only testing gets |
| RunLoop.SplitIsPermutation | AntiSpamWeka/src/main/java/io/github/marcelovca90/main/Runner.java:113-124 | under a true shuffle, training and testing together hold every loaded row exactly once, plus the empty patterns |
| RunLoop.OrderPermutation | AntiSpamWeka/src/main/java/io/github/marcelovca90/main/Runner.java:113 | every run's order is a permutation of the loaded data set |
| RunLoop.ModelFiles | AntiSpamWeka/src/main/java/io/github/marcelovca90/main/Runner.java:134-167 | training happens iff not skipped; a skipped training loads the run's model file; a save goes to that same file |
| RunLoop.TrainingSizeInRange | AntiSpamWeka/src/main/java/io/github/marcelovca90/main/Runner.java:116-120 | for a split in [0, 1] and an int-sized data set, the training size lies in [0, N] |
| RunLoop.RoundedInRange | AntiSpamWeka/src/main/java/io/github/marcelovca90/main/Runner.java:117 | `(int) Math.round(x)` of an `x` in [0, N] lies in [0, N] |
| RunLoop.ConfigNeverAborts | AntiSpamWeka/src/main/java/io/github/marcelovca90/main/Runner.java:116-120 | under a true shuffle with a split in [0, 1], building the parts never throws |
| RunLoop.LoopNeverAborts | AntiSpamWeka/src/main/java/io/github/marcelovca90/main/Runner.java:107-120 | the same from any loop state |
| RunLoop.HalfSplit | AntiSpamWeka/src/main/java/xyz/marcelo/main/Main.java:106-110 | with split 0.5 the training size is `(N+1)/2` and the testing size `N/2` |
| Sweep.Pairs | AntiSpamWeka/src/main/java/io/github/marcelovca90/main/Runner.java:73 | the inner loop pairs the method with each metadata entry in order |
| Sweep.RunStep | AntiSpamWeka/src/main/java/io/github/marcelovca90/main/Runner.java:69-173 | one more configuration appends its report, or ends the sweep with its partial report |
| Sweep.AbortedStays | AntiSpamWeka/src/main/java/io/github/marcelovca90/helper/ExecutionHelper.java:214-218 | after an exception, later configurations change nothing |
| Sweep.ConfigurationsOrder | AntiSpamWeka/src/main/java/io/github/marcelovca90/helper/ExecutionHelper.java:72-81 | configuration `i*M + j` is method `i` with metadata `j`: methods outer, metadata inner, every pair once |
| Sweep.CompletedSweep | AntiSpamWeka/src/main/java/io/github/marcelovca90/main/Runner.java:69-73 | a sweep without an exception reports every configuration, in order |
| Sweep.AbortedSweep | AntiSpamWeka/src/main/java/io/github/marcelovca90/helper/ExecutionHelper.java:55-218 | the sweep aborts iff some configuration fails, and then reports those before the first failure and that one's partial report |
| Sweep.StopsAt | AntiSpamWeka/src/main/java/io/github/marcelovca90/helper/ExecutionHelper.java:214-218 | a sweep that fails within a prefix of the configurations ends there |
| Sweep.ReportsFollowConfigurations | AntiSpamWeka/src/main/java/io/github/marcelovca90/main/Runner.java:69-73 | reports follow the configurations one for one |
| Runner.LoadFolder | AntiSpamWeka/src/main/java/io/github/marcelovca90/main/Runner.java:76-78 | reads `folder/ham` and `folder/spam` and merges them, or fails |
| Runner.RunLoaded | AntiSpamWeka/src/main/java/io/github/marcelovca90/main/Runner.java:81-172 | filters, builds the empty patterns (throwing on a negative count) and runs, as the configuration's definition says |
| Runner.RunOne | AntiSpamWeka/src/main/java/io/github/marcelovca90/main/Runner.java:75-172 | the inner loop body is the configuration's definition |
| Runner.Run | AntiSpamWeka/src/main/java/io/github/marcelovca90/main/Runner.java:69-174 | the nested loops make exactly the sweep over the configurations |
| Runner.ConfigureLabelled | AntiSpamWeka/src/main/java/io/github/marcelovca90/main/Runner.java:99 | each configuration's report is labelled with it |
| Runner.ReportsInOrder | AntiSpamWeka/src/main/java/io/github/marcelovca90/main/Runner.java:69-172 | every pair is reported once, in order, with the final summary iff testing is not skipped (no run-count guard) |
| Runner.CompletedReport | AntiSpamWeka/src/main/java/io/github/marcelovca90/main/Runner.java:171-172 | a completed configuration logs its final summary iff testing is not skipped |
| Runner.ReportedRuns | AntiSpamWeka/src/main/java/io/github/marcelovca90/main/Runner.java:76-172 | the reported runs are the loop's on the filtered set; total features come from the loaded set, actual features from the filtered one |
| Runner.SeedsArePrimes | AntiSpamWeka/src/main/java/io/github/marcelovca90/main/Runner.java:102-110 | every configuration's seeds are 2, then each the least prime above the last |
| Runner.ModelFilesPerRun | AntiSpamWeka/src/main/java/io/github/marcelovca90/main/Runner.java:134-167 | training iff not skipped; skipping loads the seed's model file; saving goes to it; no two runs share a model file |
| Runner.OnlySetupThrows | AntiSpamWeka/src/main/java/io/github/marcelovca90/main/Runner.java:76-120 | with a true shuffle and a split in [0, 1], a configuration throws iff loading fails or empty patterns are asked for with a negative count |
| MainProgram.RunOne | AntiSpamWeka/src/main/java/xyz/marcelo/main/Main.java:67-162 | the inner loop body is the configuration's definition |
| MainProgram.Run | AntiSpamWeka/src/main/java/xyz/marcelo/main/Main.java:61-164 | the nested loops make exactly the sweep over the configurations |
| MainProgram.ConfigureLabelled | AntiSpamWeka/src/main/java/xyz/marcelo/main/Main.java:89 | each configuration's report is labelled with it |
| MainProgram.ReportsInOrder | AntiSpamWeka/src/main/java/xyz/marcelo/main/Main.java:61-162 | every pair is reported once, in order, never with a total feature count, with the final summary iff testing is not skipped |
| MainProgram.CompletedReport | AntiSpamWeka/src/main/java/xyz/marcelo/main/Main.java:159-162 | no total feature count, and the final summary iff testing is not skipped |
| MainProgram.ReportedRuns | AntiSpamWeka/src/main/java/xyz/marcelo/main/Main.java:68-132 | the reported runs are the loop's on the filtered set, and the actual feature count is the filtered set's |
| MainProgram.HalfSplitRuns | AntiSpamWeka/src/main/java/xyz/marcelo/main/Main.java:106-113 | every run trains on `(N+1)/2` rows and tests on `N/2` plus the empty patterns |
| MainProgram.OnlySetupThrows | AntiSpamWeka/src/main/java/xyz/marcelo/main/Main.java:70-110 | under a true shuffle a configuration throws iff loading or building the empty patterns throws |
| MainProgram.SeedsArePrimes | AntiSpamWeka/src/main/java/xyz/marcelo/main/Main.java:92-100 | seeds restart at 1 per configuration and then run through 2, 3, 5, … without gaps |
| MainProgram.RewindAddsRuns | AntiSpamWeka/src/main/java/xyz/marcelo/main/Main.java:138-151 | a removal happens only on a tested run at counter `runs - 1`, and it adds exactly that many runs |
| Execution.TotalFeaturesOfFolder | AntiSpamWeka/src/main/java/io/github/marcelovca90/helper/ExecutionHelper.java:97 | a folder ending in a separator and an int yields that int, with `\` chosen when present and `/` otherwise |
| Execution.TotalFeaturesOfFolderPath | AntiSpamWeka/src/main/java/io/github/marcelovca90/helper/ExecutionHelper.java:97 | a `DataSetHelper` path yields its feature amount |
| Execution.TotalFeaturesOfListedFolder | AntiSpamWeka/src/main/java/io/github/marcelovca90/helper/ExecutionHelper.java:97 | each of the 84 listed folders yields its feature amount |
| Execution.LoadFolder | AntiSpamWeka/src/main/java/io/github/marcelovca90/helper/ExecutionHelper.java:90-115 | the `.arff` branch when that file exists (there before the sweep or written by an earlier configuration, which is then read back), with the total read off the folder name; else ham, spam, matched and merged |
| Execution.RunLoaded | AntiSpamWeka/src/main/java/io/github/marcelovca90/helper/ExecutionHelper.java:117-210 | filters, saves `folder/data.arff` when asked, builds the empty patterns and runs, as the configuration's definition says, and leaves the written files as `Saved` says |
| Execution.RunFiltered | AntiSpamWeka/src/main/java/io/github/marcelovca90/helper/ExecutionHelper.java:130-210 | from the filtered set on: the empty patterns (a throw on a negative count), then the runs, as the configuration's definition says |
| Execution.SaveArff | AntiSpamWeka/src/main/java/io/github/marcelovca90/helper/ExecutionHelper.java:126-128 | with `saveArff`, either the write throws or `folder/data.arff` now holds the filtered set; without it nothing is written |
| Execution.BuildEmpties | AntiSpamWeka/src/main/java/io/github/marcelovca90/helper/ExecutionHelper.java:130-132 | the empty patterns when asked, and a throw on a negative count |
| Execution.RunOne | AntiSpamWeka/src/main/java/io/github/marcelovca90/helper/ExecutionHelper.java:83-210 | the inner loop body is the configuration's definition given the files written so far, and passes on the files written after it |
| Execution.RunMethod | AntiSpamWeka/src/main/java/io/github/marcelovca90/helper/ExecutionHelper.java:81-211 | one pass of the data-set loop either ends the whole sweep at the configuration that throws or leaves it complete up to and including this method, with the `.arff` files those configurations wrote |
| Execution.Run | AntiSpamWeka/src/main/java/io/github/marcelovca90/helper/ExecutionHelper.java:53-219 | the nested loops inside the `try` make exactly the sweep over the configurations, each seeing the `.arff` files written before it |
| Execution.WrittenStep | AntiSpamWeka/src/main/java/io/github/marcelovca90/helper/ExecutionHelper.java:126-128 | the files written after one more configuration are those before it plus what it saves |
| Execution.ConfigureLabelled | AntiSpamWeka/src/main/java/io/github/marcelovca90/helper/ExecutionHelper.java:138 | each configuration's report is labelled with it |
| Execution.ReportsInOrder | AntiSpamWeka/src/main/java/io/github/marcelovca90/helper/ExecutionHelper.java:72-210 | every pair is reported once, in order, with a total count, and with the final summary iff `numberOfRuns > 0` and testing is not skipped |
| Execution.CompletedReport | AntiSpamWeka/src/main/java/io/github/marcelovca90/helper/ExecutionHelper.java:209-210 | the final summary is logged iff `numberOfRuns > 0` and testing is not skipped |
| Execution.ReportedRuns | AntiSpamWeka/src/main/java/io/github/marcelovca90/helper/ExecutionHelper.java:90-210 | the loop's runs on the filtered set; the total is the folder's last segment (`.arff`) or the merged set's count (raw) |
| Execution.UnnumberedArffFolderThrows | AntiSpamWeka/src/main/java/io/github/marcelovca90/helper/ExecutionHelper.java:91-97 | an `.arff` folder whose last segment is not an int throws before any run |
| Execution.SavesFilteredSet | AntiSpamWeka/src/main/java/io/github/marcelovca90/helper/ExecutionHelper.java:117-128 | with `saveArff`, a configuration that reaches its runs leaves exactly its filtered set in `folder/data.arff` and changes no other file; without it nothing is written |
| Execution.SavedArffStopsNextMethod | AntiSpamWeka/src/main/java/io/github/marcelovca90/helper/ExecutionHelper.java:91-97 | with `saveArff`, a raw folder whose name does not end in a number gives one report, and the next method throws on the `.arff` file the first one wrote |
| Execution.ExactRunCount | AntiSpamWeka/src/main/java/io/github/marcelovca90/helper/ExecutionHelper.java:143-198 | with outlier removal off or testing skipped, exactly `max(numberOfRuns, 0)` runs and no removal |
| Execution.SeedsCountUpdates | AntiSpamWeka/src/main/java/io/github/marcelovca90/helper/ExecutionHelper.java:88-149 | the generator is reset per configuration, and run `k` uses it after `k + 1` updates |
| Execution.OneModelFilePerConfiguration | AntiSpamWeka/src/main/java/io/github/marcelovca90/helper/ExecutionHelper.java:170-205 | always a fresh copy of the base classifier, trained iff not skipped, and every saved run goes to the one model file of the configuration |
| Execution.OnlySetupThrows | AntiSpamWeka/src/main/java/io/github/marcelovca90/helper/ExecutionHelper.java:94-156 | with a true shuffle and a split in [0, 1], a configuration throws iff loading fails, saving the `.arff` file fails, or empty patterns are asked for with a negative count |

## Left out

- Floating point.
  - Splits are exact reals. `(int)`, `Math.round` and `N * split` are computed on them exactly, not on IEEE doubles.
  - Feature values are kept as their 64-bit patterns and never interpreted.
  - `%.2f` formatting is not modelled.
- File and stream I/O.
  - A file is its full contents, or `None` when it cannot be opened.
  - `InputStream.read` is taken to fill the buffer as far as the bytes allow. Short reads in the middle of a file are not modelled.
  - Closing a reader or a writer is not modelled, nor are writer failures.
- Regular expressions.
  - `DataSetHelper.shortenFolderName` splits on the separator and replaces each segment literally. The source's `split` and `replaceAll` read the segment as a regular expression, and its replacement as a template (`$`, `\`). Only segments free of regex metacharacters are modelled faithfully.
  - The metadata `~` expansion is modelled both ways; see Findings.
- InputOutput.LoadDataSetsMetadataFromFile: the read loop expands a leading `~` with the corrected, literal replacement, not with the as-written `replaceAll`. `ExpandHomeAgrees` bounds the difference: the two agree for every home directory free of `\` and `$`.
- InputOutput.ParseLine: uses the same corrected expansion, for the same reason.
- ParseInt: accepts only the ASCII digits `0`–`9`. `Integer.parseInt` also accepts the other Unicode decimal digits (those `Character.digit` maps to 0–9), which the model refuses.
- Integer width.
  - Seeds and run counters are unbounded integers. `Primes.nextPrime(++seed)` never overflows here.
  - `numberOfAttributes + 1` overflowing is modelled as a failure.
- Weka.
  - `new Instances(name, attributes, capacity)` with a negative capacity from a raw header is not checked. The instance count of a raw header is not otherwise used. The negative empty-pattern counts of `createEmptyInstances` are modelled: they throw.
  - The relation name (a random UUID) is not modelled.
  - `Instances.randomize` is an arbitrary function of the seed and the current order. Lemmas that need it to be a permutation assume so (`IsShuffle`).
  - Classifier construction, `makeCopy`, training, `Evaluation` and `toStringNoWeight` are opaque: a run records which of them it performed and with which file.
- The outlier detector is a finite script of answers per configuration, 0 once it runs out, capped at the number of results recorded. Its statistics are not modelled. The finite script is also what makes the modelled loop end; the source's loop ends only if the detector eventually answers 0.
- `RandomHelper` in `ExecutionHelper` is modelled by its update count since `reset()`, not by a generator state.
- Only the number of recorded results is kept; the result history's content is not modelled. `computeSingleRunResults`, `clearResultHistory`, `summarizeResults` and `printHeader` are reduced to that count and to the final-summary flag.
- `DataSetMetadata` equality is taken as value equality of folder and counts (its class is not part of this model). The `LinkedHashSet` de-duplicates on it.
- `ExecutionHelper`'s collaborators are parameters: `loadInstancesFromArffFile`, `loadInstancesFromRawFile`, `matchCardinalities` (treated as returning the rebalanced pair it produces in place), `mergeInstances`, and the 3-argument `buildClassifierFilename`.
- `Main`'s `IOHelper.loadInstancesFromFile`, `IOHelper.createEmptyInstances` and `IOHelper.buildClassifierFilename` are parameters too. `IOHelper`, `ResultHelper`, `FilterHelper`, `CLIHelper`, `MetaHelper`, `MethodEvaluation` and `FormatHelper` are not part of this model.
- The feature and class filters (`FilterConfiguration.buildAndApply`) are opaque functions on data sets.
- Writing the `saveSets` files is not recorded in a run. Loading or saving a model file is assumed to succeed.
- `ExecutionHelper`'s `saveArff` files are tracked across the sweep as the data set each was written from. A later configuration that finds one reads it back through the `reread` collaborator; the ARFF text format is not modelled.
- Logging (tinylog `Configurator`, `Logger`), `printConfiguration`, `e.printStackTrace` and the `thread` and `isRunning` fields are not modelled.
- Helper structure.
  - `RunLoop.TestStep`, `InputOutput.ParseLine`, `InputOutput.ReadStep` and `InputOutput.PutValue` are pieces of the source's loop bodies, written as separate methods. `Execution.RunMethod` is the data-set loop of `ExecutionHelper.run`, written as a separate method; `Execution.SaveArff`, `Execution.BuildEmpties` and `Execution.RunFiltered` are steps of its body.
  - `Primes.NextPrime` is modelled by its documented result, not by the library's search.

## Findings

| source | as written | input that shows it | evidently intended | confidence | as-written member | corrected member |
|---|---|---|---|---|---|---|
| AntiSpamWeka/src/main/java/io/github/marcelovca90/helper/InputOutputHelper.java:148 | `line.replaceAll("~", home)` reads the home directory as a replacement template, in which `\` escapes the next character and `$` refers to a group | home `C:\Users\me` and the line `~\corpus,0,0` give the folder `C:Usersme\corpus` | `~` replaced by the home directory's text, giving `C:\Users\me\corpus` | not executed | InputOutput.ParseMetadataLineAsWritten, InputOutput.WindowsHomeLosesSeparators | InputOutput.ParseMetadataLine, InputOutput.ExpandLeadingHome, InputOutput.WindowsHomeLiteral |
