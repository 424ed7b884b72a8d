/** `InputOutputHelper`: how the program names model files, builds the
    attribute list and the set of empty patterns, reads the data-set metadata
    file, decodes the raw binary ham/spam files and writes a data set as CSV.
    Files are given as their contents (a sequence of lines or of bytes); the
    CSV writer returns the lines it writes. */
module InputOutput {
  import opened JavaText
  import opened WekaData

  // ---------------------------------------------------------------------------
  // Model file names
  // ---------------------------------------------------------------------------

  /** `buildClassifierFilename`: `<folder><sep><Class>_TRAIN=<p>_TEST=<q>_SEED=<seed>.model`,
      with `p` and `q` the train and test percentages cast to `int`. */
  function BuildClassifierFilename(folder: string, sep: char, simpleName: string, splitPercent: real, seed: int): string
  {
    folder + [sep] + simpleName
    + "_TRAIN=" + IntToString(JavaIntCast(100.0 * splitPercent))
    + "_TEST=" + IntToString(JavaIntCast(100.0 * (1.0 - splitPercent)))
    + "_SEED=" + IntToString(seed) + ".model"
  }

  /** For a split of `t` percent the name records `t` and `100 - t`. */
  lemma ClassifierFilenamePercentages(folder: string, sep: char, simpleName: string, t: int, seed: int)
    requires 0 <= t <= 100
    ensures BuildClassifierFilename(folder, sep, simpleName, t as real / 100.0, seed)
         == folder + [sep] + simpleName + "_TRAIN=" + IntToString(t)
            + "_TEST=" + IntToString(100 - t) + "_SEED=" + IntToString(seed) + ".model"
  {
    assert 100.0 * (t as real / 100.0) == t as real;
    assert 100.0 * (1.0 - t as real / 100.0) == (100 - t) as real;
    assert Truncate(t as real) == t;
    assert Truncate((100 - t) as real) == 100 - t;
  }

  lemma MiddleEqual(p: string, a: string, b: string, q: string)
    requires p + a + q == p + b + q
    ensures a == b
  {
    assert |a| == |b|;
    assert a == (p + a + q)[|p|..|p| + |a|];
    assert b == (p + b + q)[|p|..|p| + |b|];
  }

  /** Different seeds give different model files, so no run of a
      configuration overwrites the model of another run. */
  lemma ClassifierFilenameSeedInjective(folder: string, sep: char, simpleName: string, splitPercent: real, seed1: int, seed2: int)
    requires BuildClassifierFilename(folder, sep, simpleName, splitPercent, seed1)
          == BuildClassifierFilename(folder, sep, simpleName, splitPercent, seed2)
    ensures seed1 == seed2
  {
    var p := folder + [sep] + simpleName
      + "_TRAIN=" + IntToString(JavaIntCast(100.0 * splitPercent))
      + "_TEST=" + IntToString(JavaIntCast(100.0 * (1.0 - splitPercent)))
      + "_SEED=";
    assert BuildClassifierFilename(folder, sep, simpleName, splitPercent, seed1) == p + IntToString(seed1) + ".model";
    assert BuildClassifierFilename(folder, sep, simpleName, splitPercent, seed2) == p + IntToString(seed2) + ".model";
    MiddleEqual(p, IntToString(seed1), IntToString(seed2), ".model");
    IntToStringInjective(seed1, seed2);
  }

  // ---------------------------------------------------------------------------
  // Attributes and empty patterns
  // ---------------------------------------------------------------------------

  /** `createAttributes`: numeric `x0 … x{n-1}`, then the nominal class. */
  method CreateAttributes(featureAmount: nat) returns (attributes: seq<Attribute>)
    ensures attributes == Attributes(featureAmount)
  {
    attributes := [];
    var i := 0;
    while i < featureAmount
      invariant 0 <= i <= featureAmount
      invariant attributes == Attributes(featureAmount)[..i]
    {
      attributes := attributes + [Numeric(FeatureName(i))];
      i := i + 1;
    }
    assert Attributes(featureAmount) == Attributes(featureAmount)[..featureAmount] + [ClassAttribute];
    attributes := attributes + [ClassAttribute];
  }

  /** One loop of `createEmptyInstances`: `count` rows of one class, each a
      fresh instance of missing values whose features are then set to 0.0. */
  method CreateEmptyRows(featureAmount: nat, count: nat, messageType: Label) returns (rows: seq<Instance>)
    ensures |rows| == count
    ensures forall i :: 0 <= i < |rows| ==> rows[i] == Instance(Zeros(featureAmount), messageType)
  {
    rows := [];
    var i := 0;
    while i < count
      invariant 0 <= i <= count
      invariant |rows| == i
      invariant forall k :: 0 <= k < i ==> rows[k] == Instance(Zeros(featureAmount), messageType)
    {
      var values := Missing(featureAmount);
      var j := 0;
      while j < featureAmount
        invariant 0 <= j <= featureAmount
        invariant |values| == featureAmount
        invariant forall k :: 0 <= k < featureAmount ==> values[k] == if k < j then Zero else MissingValue
      {
        values := values[j := Zero];
        j := j + 1;
      }
      assert values == Zeros(featureAmount);
      rows := rows + [Instance(values, messageType)];
      i := i + 1;
    }
  }

  /** The rows of a successful `createEmptyInstances(featureAmount,
      emptyHamCount, emptySpamCount)`, as the experiment loops append them to
      a testing set. */
  function EmptyPatterns(featureAmount: nat, emptyHamCount: nat, emptySpamCount: nat): seq<Instance>
  {
    seq(emptyHamCount + emptySpamCount,
      i => Instance(Zeros(featureAmount), if i < emptyHamCount then Ham else Spam))
  }

  /** `createEmptyInstances`: the ham empty patterns, then the spam ones, over
      the attributes of `createAttributes(featureAmount)`, class last. Each
      partial set is created with its count as the initial capacity, and a
      negative capacity makes the constructor throw (`None`). */
  method CreateEmptyInstances(featureAmount: nat, emptyHamCount: int, emptySpamCount: int) returns (r: Option<Instances>)
    ensures r.None? <==> emptyHamCount < 0 || emptySpamCount < 0
    ensures r.Some? ==> r.value.attributes == Attributes(featureAmount) && r.value.classIndex == featureAmount
    ensures r.Some? ==> |r.value.rows| == emptyHamCount + emptySpamCount
    ensures r.Some? ==> forall i :: 0 <= i < |r.value.rows| ==>
      r.value.rows[i] == Instance(Zeros(featureAmount), if i < emptyHamCount then Ham else Spam)
    ensures r.Some? ==>
      emptyHamCount >= 0 && emptySpamCount >= 0 && r.value.rows == EmptyPatterns(featureAmount, emptyHamCount, emptySpamCount)
  {
    if emptyHamCount < 0 {
      return None;
    }
    var hamRows := CreateEmptyRows(featureAmount, emptyHamCount, Ham);
    if emptySpamCount < 0 {
      return None;
    }
    var spamRows := CreateEmptyRows(featureAmount, emptySpamCount, Spam);
    var attributes := CreateAttributes(featureAmount);
    r := Some(Instances(attributes, |attributes| - 1, hamRows + spamRows));
  }

  // ---------------------------------------------------------------------------
  // The data-set metadata file
  // ---------------------------------------------------------------------------

  /** `DataSetMetadata`: a folder and the numbers of empty ham and spam patterns. */
  datatype Metadata = Metadata(folder: string, emptyHamCount: int, emptySpamCount: int)

  /** Why a line is refused: a missing field (the array index the source reads
      out of bounds), a field that is not an `int` (its text), or — only in the
      as-written expansion of `~` — a home directory that is not a valid
      replacement string. */
  datatype MetadataError = MissingField(index: nat) | NotAnInteger(text: string) | IllegalReplacement

  datatype LineOutcome = Skipped | Parsed(metadata: Metadata) | Rejected(error: MetadataError)

  predicate IsBlankOrComment(line: string)
  {
    line == [] || line[0] == '#'
  }

  /** A leading `~` stands for the home directory: every `~` of such a line is
      replaced by the text of `home`. */
  function ExpandHome(line: string, home: string): string
  {
    if line != [] && line[0] == '~' then ReplaceChar(line, '~', home) else line
  }

  /** The fields `folder,emptyHam,emptySpam`, read in the order the source
      reads them; further fields are ignored. */
  function ParseParts(parts: seq<string>): LineOutcome
  {
    if |parts| < 1 then Rejected(MissingField(0))
    else if |parts| < 2 then Rejected(MissingField(1))
    else if ParseInt(parts[1]).None? then Rejected(NotAnInteger(parts[1]))
    else if |parts| < 3 then Rejected(MissingField(2))
    else if ParseInt(parts[2]).None? then Rejected(NotAnInteger(parts[2]))
    else Parsed(Metadata(parts[0], ParseInt(parts[1]).value, ParseInt(parts[2]).value))
  }

  function ParseFields(line: string): LineOutcome
  {
    ParseParts(JavaSplit(line, ','))
  }

  /** One line of the metadata file: blank and `#` lines are skipped. */
  function ParseMetadataLine(line: string, home: string): LineOutcome
  {
    if IsBlankOrComment(line) then Skipped else ParseFields(ExpandHome(line, home))
  }

  /** The entries so far after one more line: an error stays. */
  function AddLine(entries: Result<seq<Metadata>, MetadataError>, outcome: LineOutcome): Result<seq<Metadata>, MetadataError>
  {
    match entries
    case Err(e) => Err(e)
    case Ok(previous) =>
      match outcome
      case Skipped => Ok(previous)
      case Parsed(m) => Ok(previous + [m])
      case Rejected(e) => Err(e)
  }

  /** The entries of the file in order, or the error of its first bad line. */
  function MetadataEntries(lines: seq<string>, home: string): Result<seq<Metadata>, MetadataError>
    decreases |lines|
  {
    if lines == [] then Ok([])
    else AddLine(MetadataEntries(lines[..|lines| - 1], home), ParseMetadataLine(lines[|lines| - 1], home))
  }

  /** What a `LinkedHashSet` holds after adding `s` in order: each element once,
      at the place of its first addition. */
  function FirstOccurrences<T(==)>(s: seq<T>): seq<T>
    decreases |s|
  {
    if s == [] then []
    else
      var kept := FirstOccurrences(s[..|s| - 1]);
      if s[|s| - 1] in kept then kept else kept + [s[|s| - 1]]
  }

  /** `loadDataSetsMetadataFromFile` on the lines of the file. */
  function LoadDataSetsMetadata(lines: seq<string>, home: string): Result<seq<Metadata>, MetadataError>
  {
    match MetadataEntries(lines, home)
    case Ok(entries) => Ok(FirstOccurrences(entries))
    case Err(e) => Err(e)
  }

  lemma {:induction false} EntriesErrorSticky(xs: seq<string>, ys: seq<string>, home: string)
    requires MetadataEntries(xs, home).Err?
    ensures MetadataEntries(xs + ys, home) == MetadataEntries(xs, home)
    decreases |ys|
  {
    if ys == [] {
      assert xs + ys == xs;
    } else {
      var zs := xs + ys;
      assert zs[..|zs| - 1] == xs + ys[..|ys| - 1];
      EntriesErrorSticky(xs, ys[..|ys| - 1], home);
    }
  }

  /** The loop of `loadDataSetsMetadataFromFile`, line by line. */
  method LoadDataSetsMetadataFromFile(lines: seq<string>, home: string) returns (r: Result<seq<Metadata>, MetadataError>)
    ensures r == LoadDataSetsMetadata(lines, home)
  {
    var metadata: seq<Metadata> := [];
    ghost var entries: seq<Metadata> := [];
    var i := 0;
    while i < |lines|
      invariant 0 <= i <= |lines|
      invariant MetadataEntries(lines[..i], home) == Ok(entries)
      invariant metadata == FirstOccurrences(entries)
    {
      assert lines[..i + 1][..i] == lines[..i];
      var outcome := ParseLine(lines[i], home);
      if outcome.Rejected? {
        assert MetadataEntries(lines[..i + 1], home) == Err(outcome.error);
        EntriesErrorSticky(lines[..i + 1], lines[i + 1..], home);
        assert lines[..i + 1] + lines[i + 1..] == lines;
        return Err(outcome.error);
      }
      if outcome.Parsed? {
        var m := outcome.metadata;
        if m !in metadata {
          metadata := metadata + [m];
        }
        entries := entries + [m];
      }
      i := i + 1;
    }
    assert lines[..|lines|] == lines;
    r := Ok(metadata);
  }

  /** The body of the read loop for one line. */
  method ParseLine(line: string, home: string) returns (outcome: LineOutcome)
    ensures outcome == ParseMetadataLine(line, home)
  {
    if line == [] || line[0] == '#' {
      return Skipped;
    }
    var expanded := line;
    if line[0] == '~' {
      expanded := ReplaceChar(line, '~', home);
    }
    var parts := JavaSplit(expanded, ',');
    if |parts| < 1 {
      return Rejected(MissingField(0));
    } else if |parts| < 2 {
      return Rejected(MissingField(1));
    } else if ParseInt(parts[1]).None? {
      return Rejected(NotAnInteger(parts[1]));
    } else if |parts| < 3 {
      return Rejected(MissingField(2));
    } else if ParseInt(parts[2]).None? {
      return Rejected(NotAnInteger(parts[2]));
    }
    outcome := Parsed(Metadata(parts[0], ParseInt(parts[1]).value, ParseInt(parts[2]).value));
  }

  /** The first index of `x` in `s`. */
  function IndexOf<T(==)>(s: seq<T>, x: T): (i: nat)
    requires x in s
    ensures i < |s| && s[i] == x && x !in s[..i]
  {
    if s[0] == x then 0 else 1 + IndexOf(s[1..], x)
  }

  lemma {:induction false} IndexOfAppend<T>(s: seq<T>, y: T, x: T)
    requires x in s
    ensures IndexOf(s + [y], x) == IndexOf(s, x)
  {
    if s[0] != x {
      assert (s + [y])[1..] == s[1..] + [y];
      IndexOfAppend(s[1..], y, x);
    }
  }

  /** A `LinkedHashSet` keeps each element once, keeps every element added,
      and orders the elements by their first addition. */
  lemma {:induction false} FirstOccurrencesSpec<T>(s: seq<T>)
    ensures forall x :: x in FirstOccurrences(s) ==> x in s
    ensures forall x :: x in s ==> x in FirstOccurrences(s)
    ensures forall i, j :: 0 <= i < j < |FirstOccurrences(s)| ==> FirstOccurrences(s)[i] != FirstOccurrences(s)[j]
    ensures forall i, j :: 0 <= i < j < |FirstOccurrences(s)| ==>
      IndexOf(s, FirstOccurrences(s)[i]) < IndexOf(s, FirstOccurrences(s)[j])
    decreases |s|
  {
    if s != [] {
      var init := s[..|s| - 1];
      var last := s[|s| - 1];
      FirstOccurrencesSpec(init);
      assert s == init + [last];
      var kept := FirstOccurrences(init);
      forall x | x in init ensures IndexOf(s, x) == IndexOf(init, x) {
        IndexOfAppend(init, last, x);
      }
      if last !in kept {
        var r := kept + [last];
        assert last !in init;
        assert IndexOf(s, last) == |init|;
        forall i, j | 0 <= i < j < |r| ensures IndexOf(s, r[i]) < IndexOf(s, r[j]) {
          assert r[i] == kept[i];
          assert kept[i] in kept;
          assert kept[i] in init;
          if j < |kept| {
            assert r[j] in init;
          }
        }
      } else {
        forall i, j | 0 <= i < j < |kept| ensures IndexOf(s, kept[i]) < IndexOf(s, kept[j]) {
          assert kept[i] in init && kept[j] in init;
        }
      }
    }
  }

  /** Blank and comment lines can be inserted anywhere without changing what
      the file yields. */
  lemma CommentLineIgnored(before: seq<string>, comment: string, after: seq<string>, home: string)
    requires IsBlankOrComment(comment)
    ensures LoadDataSetsMetadata(before + [comment] + after, home) == LoadDataSetsMetadata(before + after, home)
  {
    CommentEntriesIgnored(before, comment, after, home);
  }

  lemma {:induction false} CommentEntriesIgnored(before: seq<string>, comment: string, after: seq<string>, home: string)
    requires IsBlankOrComment(comment)
    ensures MetadataEntries(before + [comment] + after, home) == MetadataEntries(before + after, home)
    decreases |after|
  {
    if after == [] {
      var s := before + [comment];
      assert s[..|s| - 1] == before;
      assert before + [comment] + after == s;
      assert before + after == before;
    } else {
      var init := after[..|after| - 1];
      InsertedLast(before, comment, after);
      CommentEntriesIgnored(before, comment, init, home);
    }
  }

  /** Dropping the last line of `before + [comment] + after` and of
      `before + after` drops the same line from `after`. */
  lemma InsertedLast(before: seq<string>, comment: string, after: seq<string>)
    requires after != []
    ensures var s := before + [comment] + after; var t := before + after;
      s != [] && t != []
      && s[..|s| - 1] == before + [comment] + after[..|after| - 1]
      && t[..|t| - 1] == before + after[..|after| - 1]
      && s[|s| - 1] == t[|t| - 1]
  {
  }

  /** The line a metadata entry is written as. */
  function MetadataLine(m: Metadata): string
  {
    Join([m.folder, IntToString(m.emptyHamCount), IntToString(m.emptySpamCount)], ',')
  }

  lemma MetadataLineShape(m: Metadata)
    ensures MetadataLine(m)
         == m.folder + [','] + (IntToString(m.emptyHamCount) + [','] + IntToString(m.emptySpamCount))
  {
    var h := IntToString(m.emptyHamCount);
    var s := IntToString(m.emptySpamCount);
    var parts := [m.folder, h, s];
    assert Join([h, s], ',') == h + [','] + Join([s], ',') by {
      assert [h, s][1..] == [s];
    }
    assert Join(parts, ',') == m.folder + [','] + Join([h, s], ',') by {
      assert parts[1..] == [h, s];
    }
  }

  /** The fields of a line written from an entry with a comma-free folder and
      two `int`s give that entry back. */
  lemma ParseFieldsRoundTrip(m: Metadata)
    requires ',' !in m.folder
    requires IsInt32(m.emptyHamCount) && IsInt32(m.emptySpamCount)
    ensures ParseFields(MetadataLine(m)) == Parsed(m)
  {
    var h := IntToString(m.emptyHamCount);
    var s := IntToString(m.emptySpamCount);
    IntToStringChars(m.emptyHamCount, ',');
    IntToStringChars(m.emptySpamCount, ',');
    var parts := [m.folder, h, s];
    var line := MetadataLine(m);
    MetadataLineShape(m);
    assert line[|m.folder|] == ',';
    FieldsJoin(parts, ',');
    assert StripTrailingEmpty(parts) == parts;
    assert JavaSplit(line, ',') == parts;
    ParseIntToString(m.emptyHamCount);
    ParseIntToString(m.emptySpamCount);
  }

  /** A well-formed line — a folder without commas that does not start with
      `#` or `~`, and two `int`s — is read back as the entry it was written from. */
  lemma MetadataLineRoundTrip(m: Metadata, home: string)
    requires ',' !in m.folder
    requires m.folder == [] || (m.folder[0] != '#' && m.folder[0] != '~')
    requires IsInt32(m.emptyHamCount) && IsInt32(m.emptySpamCount)
    ensures ParseMetadataLine(MetadataLine(m), home) == Parsed(m)
  {
    MetadataLineShape(m);
    var line := MetadataLine(m);
    assert line[0] != '#' && line[0] != '~';
    ParseFieldsRoundTrip(m);
  }

  lemma ParsePartsPrefix(short: seq<string>, long: seq<string>)
    requires |short| >= 3 && short <= long
    ensures ParseParts(long) == ParseParts(short)
  {
    assert long[0] == short[0] && long[1] == short[1] && long[2] == short[2];
  }

  lemma ExpandHomeAppend(line: string, extra: string, home: string)
    requires line != []
    ensures ExpandHome(line + [','] + extra, home)
         == ExpandHome(line, home) + [','] + (if line[0] == '~' then ReplaceChar(extra, '~', home) else extra)
  {
    var longer := line + [','] + extra;
    assert longer[0] == line[0];
    if line[0] == '~' {
      var tail := [','] + extra;
      assert longer == line + tail;
      ReplaceCharAppend(line, tail, '~', home);
      ReplaceCharAppend([','], extra, '~', home);
      assert ReplaceChar([','], '~', home) == [','];
      var l := ReplaceChar(line, '~', home);
      var e := ReplaceChar(extra, '~', home);
      assert ReplaceChar(longer, '~', home) == l + ([','] + e);
      assert l + ([','] + e) == l + [','] + e;
    }
  }

  /** Splitting a line with extra fields keeps the fields of the line. */
  lemma SplitExtraFields(l: string, e: string)
    requires ',' in l
    ensures JavaSplit(l, ',') <= JavaSplit(l + [','] + e, ',')
  {
    assert (l + [','] + e)[|l|] == ',';
    assert JavaSplit(l, ',') == StripTrailingEmpty(Fields(l, ','));
    assert JavaSplit(l + [','] + e, ',') == StripTrailingEmpty(Fields(l + [','] + e, ','));
    FieldsAppend(l, e, ',');
    StripTrailingEmptyPrefix(Fields(l, ','), Fields(e, ','));
  }

  /** Fields after the third are ignored. */
  lemma ExtraFieldsIgnored(line: string, extra: string, home: string)
    requires !IsBlankOrComment(line)
    requires |JavaSplit(ExpandHome(line, home), ',')| >= 3
    ensures ParseMetadataLine(line + [','] + extra, home) == ParseMetadataLine(line, home)
  {
    var longer := line + [','] + extra;
    assert longer[0] == line[0];
    var l := ExpandHome(line, home);
    var e := if line[0] == '~' then ReplaceChar(extra, '~', home) else extra;
    assert ',' in l;
    ExpandHomeAppend(line, extra, home);
    SplitExtraFields(l, e);
    ParsePartsPrefix(JavaSplit(l, ','), JavaSplit(l + [','] + e, ','));
  }

  /** A file is refused exactly when one of its lines is, and the error is
      that of its first refused line. */
  lemma {:induction false} MetadataErrorIsFirstRejected(lines: seq<string>, home: string)
    ensures MetadataEntries(lines, home).Err? <==>
      exists i :: 0 <= i < |lines| && ParseMetadataLine(lines[i], home).Rejected?
    ensures MetadataEntries(lines, home).Err? ==>
      exists i :: 0 <= i < |lines| && ParseMetadataLine(lines[i], home) == Rejected(MetadataEntries(lines, home).error)
        && forall j :: 0 <= j < i ==> !ParseMetadataLine(lines[j], home).Rejected?
    decreases |lines|
  {
    if lines != [] {
      var init := lines[..|lines| - 1];
      MetadataErrorIsFirstRejected(init, home);
      if MetadataEntries(init, home).Err? {
        var i :| 0 <= i < |init| && ParseMetadataLine(init[i], home) == Rejected(MetadataEntries(init, home).error)
          && forall j :: 0 <= j < i ==> !ParseMetadataLine(init[j], home).Rejected?;
        assert lines[i] == init[i];
        assert forall j :: 0 <= j < i ==> lines[j] == init[j];
      } else {
        assert forall i :: 0 <= i < |init| ==> lines[i] == init[i];
        var k := |lines| - 1;
        if ParseMetadataLine(lines[k], home).Rejected? {
          assert ParseMetadataLine(lines[k], home) == Rejected(MetadataEntries(lines, home).error);
        }
      }
    }
  }

  // ---------------------------------------------------------------------------
  // The `~` expansion as written: `String.replaceAll` reads its replacement
  // text as a template in which `\` quotes the next character and `$`
  // introduces a group reference; the pattern `~` has no groups.
  // ---------------------------------------------------------------------------

  function DropZeros(s: string): (r: string)
    ensures |r| <= |s|
  {
    if s != [] && s[0] == '0' then DropZeros(s[1..]) else s
  }

  /** The text a match of `~` is replaced by when `r` is the replacement
      template: `\c` is `c`; `$0` (any number of zeros) is the match itself;
      a lone `\` or `$`, `$1`…`$9`, `${` and `$` before anything else fail. */
  function ReplacementText(r: string): Result<string, MetadataError>
    decreases |r|
  {
    if r == [] then Ok([])
    else if r[0] == '\\' then
      if |r| == 1 then Err(IllegalReplacement)
      else match ReplacementText(r[2..])
        case Ok(t) => Ok([r[1]] + t)
        case Err(e) => Err(e)
    else if r[0] == '$' then
      if |r| == 1 || r[1] != '0' then Err(IllegalReplacement)
      else match ReplacementText(DropZeros(r[2..]))
        case Ok(t) => Ok("~" + t)
        case Err(e) => Err(e)
    else
      match ReplacementText(r[1..])
      case Ok(t) => Ok([r[0]] + t)
      case Err(e) => Err(e)
  }

  /** A template without `\` and `$` stands for itself. */
  lemma {:induction false} ReplacementTextPlain(r: string)
    requires '\\' !in r && '$' !in r
    ensures ReplacementText(r) == Ok(r)
  {
    if r != [] {
      assert '\\' !in r[1..] && '$' !in r[1..];
      ReplacementTextPlain(r[1..]);
      assert [r[0]] + r[1..] == r;
    }
  }

  /** `line.replaceAll("~", home)` as the source writes it. */
  function ExpandHomeAsWritten(line: string, home: string): Result<string, MetadataError>
  {
    if line != [] && line[0] == '~' then
      match ReplacementText(home)
      case Ok(t) => Ok(ReplaceChar(line, '~', t))
      case Err(e) => Err(e)
    else Ok(line)
  }

  function ParseMetadataLineAsWritten(line: string, home: string): LineOutcome
  {
    if IsBlankOrComment(line) then Skipped
    else
      match ExpandHomeAsWritten(line, home)
      case Ok(expanded) => ParseFields(expanded)
      case Err(e) => Rejected(e)
  }

  /** For a home directory without `\` and `$` the two readings agree. */
  lemma ExpandHomeAgrees(line: string, home: string)
    requires '\\' !in home && '$' !in home
    ensures ParseMetadataLineAsWritten(line, home) == ParseMetadataLine(line, home)
  {
    ReplacementTextPlain(home);
  }

  lemma {:induction false} ReplacementTextPlainPrefix(a: string, rest: string)
    requires '\\' !in a && '$' !in a
    requires ReplacementText(rest).Ok?
    ensures ReplacementText(a + rest) == Ok(a + ReplacementText(rest).value)
    decreases |a|
  {
    var v := ReplacementText(rest).value;
    if a != [] {
      var r := a + rest;
      assert r[0] == a[0] && r[0] != '\\' && r[0] != '$';
      assert r[1..] == a[1..] + rest;
      assert '\\' !in a[1..] && '$' !in a[1..];
      ReplacementTextPlainPrefix(a[1..], rest);
      assert ReplacementText(r) == Ok([r[0]] + (a[1..] + v));
      assert [a[0]] + (a[1..] + v) == a + v;
    } else {
      assert a + rest == rest;
      assert a + v == v;
    }
  }

  lemma ReplacementTextEscape(c: char, rest: string)
    requires ReplacementText(rest).Ok?
    ensures ReplacementText(['\\', c] + rest) == Ok([c] + ReplacementText(rest).value)
  {
    assert (['\\', c] + rest)[2..] == rest;
  }

  lemma TemplateMe()
    ensures ReplacementText("\\me") == Ok("me")
  {
    ReplacementTextPlain("e");
    ReplacementTextEscape('m', "e");
    assert ['\\', 'm'] + "e" == "\\me" && ['m'] + "e" == "me";
  }

  lemma TemplateSersMe()
    ensures ReplacementText("sers\\me") == Ok("sersme")
  {
    TemplateMe();
    ReplacementTextPlainPrefix("sers", "\\me");
    assert "sers" + "\\me" == "sers\\me" && "sers" + "me" == "sersme";
  }

  lemma TemplateUsers()
    ensures ReplacementText("\\Users\\me") == Ok("Usersme")
  {
    TemplateSersMe();
    ReplacementTextEscape('U', "sers\\me");
    assert ['\\', 'U'] + "sers\\me" == "\\Users\\me" && ['U'] + "sersme" == "Usersme";
  }

  /** As a replacement template, `C:\Users\me` stands for `C:Usersme`. */
  lemma WindowsHomeTemplate()
    ensures ReplacementText("C:\\Users\\me") == Ok("C:Usersme")
  {
    TemplateUsers();
    ReplacementTextPlainPrefix("C:", "\\Users\\me");
    assert "C:" + "\\Users\\me" == "C:\\Users\\me" && "C:" + "Usersme" == "C:Usersme";
  }

  /** The Windows home `C:\Users\me` loses its separators when read as a
      replacement template: `~\corpus,0,0` names the folder `C:Usersme\corpus`
      instead of `C:\Users\me\corpus`. */
  lemma WindowsHomeLosesSeparators()
    ensures ParseMetadataLineAsWritten("~\\corpus,0,0", "C:\\Users\\me") == Parsed(Metadata("C:Usersme\\corpus", 0, 0))
    ensures ParseMetadataLine("~\\corpus,0,0", "C:\\Users\\me") == Parsed(Metadata("C:\\Users\\me\\corpus", 0, 0))
  {
    var folder := "\\corpus";
    var rest := folder + [','] + ("0" + [','] + "0");
    assert "~\\corpus,0,0" == "~" + rest;
    assert "C:Usersme" + folder == "C:Usersme\\corpus";
    assert "C:\\Users\\me" + folder == "C:\\Users\\me\\corpus";
    WindowsHomeAsWritten(folder);
    WindowsHomeLiteral(folder);
  }

  lemma WindowsHomeAsWritten(folder: string)
    requires ',' !in folder && '~' !in folder
    ensures var rest := folder + [','] + ("0" + [','] + "0");
      ParseMetadataLineAsWritten("~" + rest, "C:\\Users\\me") == Parsed(Metadata("C:Usersme" + folder, 0, 0))
  {
    var rest := folder + [','] + ("0" + [','] + "0");
    WindowsHomeTemplate();
    ExpandLeadingHome(rest, "C:\\Users\\me");
    FolderLine("C:Usersme", folder);
  }

  lemma WindowsHomeLiteral(folder: string)
    requires ',' !in folder && '~' !in folder
    ensures var rest := folder + [','] + ("0" + [','] + "0");
      ParseMetadataLine("~" + rest, "C:\\Users\\me") == Parsed(Metadata("C:\\Users\\me" + folder, 0, 0))
  {
    var rest := folder + [','] + ("0" + [','] + "0");
    ExpandLeadingHome(rest, "C:\\Users\\me");
    FolderLine("C:\\Users\\me", folder);
  }

  /** The fields of `home folder,0,0` name the folder `home folder`. */
  lemma FolderLine(home: string, folder: string)
    requires ',' !in home && ',' !in folder
    ensures ParseFields(home + (folder + [','] + ("0" + [','] + "0"))) == Parsed(Metadata(home + folder, 0, 0))
  {
    var m := Metadata(home + folder, 0, 0);
    assert IntToString(0) == "0";
    MetadataLineShape(m);
    assert MetadataLine(m) == home + (folder + [','] + ("0" + [','] + "0"));
    ParseFieldsRoundTrip(m);
  }

  /** A line `~rest` without further `~`: the home directory, then `rest`. */
  lemma ExpandLeadingHome(rest: string, home: string)
    requires '~' !in rest
    ensures ExpandHome("~" + rest, home) == home + rest
    ensures ReplacementText(home).Ok? ==> ExpandHomeAsWritten("~" + rest, home) == Ok(ReplacementText(home).value + rest)
  {
    ReplaceCharAppend("~", rest, '~', home);
    if ReplacementText(home).Ok? {
      ReplaceCharAppend("~", rest, '~', ReplacementText(home).value);
    }
  }

  // ---------------------------------------------------------------------------
  // The raw binary data files: a big-endian `int` count of instances, a
  // big-endian `int` count of attributes, then one big-endian double per
  // feature value, row after row.
  // ---------------------------------------------------------------------------

  /** Why a raw file cannot be loaded. */
  datatype LoadError = InvalidAttributeCount(count: int) | BufferOverflow

  function Pow256(n: nat): nat
  {
    if n == 0 then 1 else 256 * Pow256(n - 1)
  }

  /** The unsigned number the bytes denote, most significant first. */
  function BigEndian(b: seq<Byte>): (v: nat)
    ensures v < Pow256(|b|)
  {
    if b == [] then 0 else BigEndian(b[..|b| - 1]) * 256 + b[|b| - 1]
  }

  /** The `n` bytes of `x`, most significant first. */
  function ToBigEndian(x: nat, n: nat): (b: seq<Byte>)
    ensures |b| == n
  {
    if n == 0 then [] else ToBigEndian(x / 256, n - 1) + [x % 256]
  }

  lemma {:induction false} BigEndianRoundTrip(x: nat, n: nat)
    requires x < Pow256(n)
    ensures BigEndian(ToBigEndian(x, n)) == x
  {
    if n > 0 {
      assert x / 256 < Pow256(n - 1);
      BigEndianRoundTrip(x / 256, n - 1);
      var b := ToBigEndian(x, n);
      assert b[..|b| - 1] == ToBigEndian(x / 256, n - 1);
    }
  }

  /** `ByteBuffer.getInt` on four bytes: two's complement. */
  function Int32Of(b: seq<Byte>): (v: int)
    requires |b| == 4
    ensures IsInt32(v)
  {
    var u := BigEndian(b);
    if u >= 0x8000_0000 then u - 0x1_0000_0000 else u
  }

  /** The four bytes of an `int`, as `DataOutputStream.writeInt` writes them. */
  function Int32Bytes(v: int): seq<Byte>
    requires IsInt32(v)
  {
    ToBigEndian(if v < 0 then v + 0x1_0000_0000 else v, 4)
  }

  lemma Int32RoundTrip(v: int)
    requires IsInt32(v)
    ensures |Int32Bytes(v)| == 4 && Int32Of(Int32Bytes(v)) == v
  {
    BigEndianRoundTrip(if v < 0 then v + 0x1_0000_0000 else v, 4);
  }

  /** `InputStream.read(buffer)` at `offset`: the available bytes, at most
      `|buffer|` of them, overwrite the front of the buffer; the rest of the
      buffer keeps what it held. */
  function ReadInto(bytes: seq<Byte>, offset: nat, buffer: seq<Byte>): (b: seq<Byte>)
    ensures |b| == |buffer|
  {
    if offset >= |bytes| then buffer
    else
      var n := Min(|buffer|, |bytes| - offset);
      bytes[offset..offset + n] + buffer[n..]
  }

  function ZeroBytes(n: nat): (z: seq<Byte>)
    ensures |z| == n
  {
    seq(n, _ => 0)
  }

  /** The attribute count in the header (the second `int`). */
  function HeaderAttributeCount(bytes: seq<Byte>): int
  {
    Int32Of(ReadInto(bytes, Min(4, |bytes|), ZeroBytes(4)))
  }

  /** The doubles the read loop puts, each read into the reused 8-byte buffer
      (a short last read leaves stale bytes behind it). */
  function ReadValues(payload: seq<Byte>, buffer: seq<Byte>): seq<Bits64>
    requires |buffer| == 8
    decreases |payload|
  {
    if payload == [] then []
    else
      var n := Min(8, |payload|);
      var next := payload[..n] + buffer[n..];
      [BigEndian(next)] + ReadValues(payload[n..], next)
  }

  function Flatten(groups: seq<seq<Bits64>>): seq<Bits64>
  {
    if groups == [] then [] else groups[0] + Flatten(groups[1..])
  }

  lemma {:induction false} FlattenAppend(groups: seq<seq<Bits64>>, g: seq<Bits64>)
    ensures Flatten(groups + [g]) == Flatten(groups) + g
  {
    if groups == [] {
      assert Flatten([g]) == g + Flatten([]);
    } else {
      assert (groups + [g])[1..] == groups[1..] + [g];
      FlattenAppend(groups[1..], g);
    }
  }

  predicate AllOfLength(groups: seq<seq<Bits64>>, a: nat)
  {
    forall i :: 0 <= i < |groups| ==> |groups[i]| == a
  }

  /** The rows the values fill, `a` values each; a last incomplete row is
      dropped. */
  function Group(values: seq<Bits64>, a: nat): (rows: seq<seq<Bits64>>)
    requires a > 0
    ensures AllOfLength(rows, a)
    ensures Flatten(rows) <= values
    ensures |values| - |Flatten(rows)| < a
    decreases |values|
  {
    if |values| < a then []
    else
      var rest := Group(values[a..], a);
      assert Flatten([values[..a]] + rest) == values[..a] + Flatten(rest);
      [values[..a]] + rest
  }

  lemma {:induction false} GroupFlatten(groups: seq<seq<Bits64>>, pending: seq<Bits64>, a: nat)
    requires a > 0 && AllOfLength(groups, a) && |pending| < a
    ensures Group(Flatten(groups) + pending, a) == groups
  {
    if groups != [] {
      var v := Flatten(groups) + pending;
      assert v == groups[0] + (Flatten(groups[1..]) + pending);
      assert v[..a] == groups[0];
      assert v[a..] == Flatten(groups[1..]) + pending;
      GroupFlatten(groups[1..], pending, a);
    } else {
      assert Flatten(groups) + pending == pending;
    }
  }

  function RowsOf(groups: seq<seq<Bits64>>, messageType: Label): (rows: seq<Instance>)
    ensures |rows| == |groups|
    ensures forall i :: 0 <= i < |rows| ==> rows[i] == Instance(groups[i], messageType)
  {
    seq(|groups|, i requires 0 <= i < |groups| => Instance(groups[i], messageType))
  }

  /** The private raw loader of `InputOutputHelper`: an attribute count that
      is negative or whose successor overflows (`new DenseInstance(a + 1)`)
      fails; with no attribute the first value overflows the value buffer;
      otherwise the values fill rows of `a` values of the given class. The
      instance count of the header is not used. */
  function DecodeRaw(bytes: seq<Byte>, messageType: Label): Result<Instances, LoadError>
  {
    var a := HeaderAttributeCount(bytes);
    if a < 0 || a == IntMax then Err(InvalidAttributeCount(a))
    else
      match RowsFromValues(ReadValues(bytes[Min(8, |bytes|)..], ZeroBytes(8)), a, messageType)
      case Err(e) => Err(e)
      case Ok(rows) => Ok(Instances(Attributes(a), a, rows))
  }

  /** The rows the values make for `a` attributes. */
  function RowsFromValues(values: seq<Bits64>, a: nat, messageType: Label): Result<seq<Instance>, LoadError>
  {
    if a == 0 then
      if values == [] then Ok([]) else Err(BufferOverflow)
    else Ok(RowsOf(Group(values, a), messageType))
  }

  /** One read of the loop: the next at most 8 bytes overwrite the front of
      the buffer and the double they make is put. */
  lemma ReadValuesStep(bytes: seq<Byte>, offset: nat, buffer: seq<Byte>)
    requires offset < |bytes| && |buffer| == 8
    ensures var n := Min(8, |bytes| - offset);
      var next := bytes[offset..offset + n] + buffer[n..];
      ReadValues(bytes[offset..], buffer) == [BigEndian(next)] + ReadValues(bytes[offset + n..], next)
  {
    var n := Min(8, |bytes| - offset);
    assert bytes[offset..][..n] == bytes[offset..offset + n];
    assert bytes[offset..][n..] == bytes[offset + n..];
  }

  /** One read of the loop, as the loop performs it. */
  method ReadStep(bytes: seq<Byte>, offset: nat, buffer: seq<Byte>) returns (n: nat, next: seq<Byte>, value: Bits64)
    requires offset < |bytes| && |buffer| == 8
    ensures n == Min(8, |bytes| - offset) && offset + n <= |bytes| && |next| == 8
    ensures ReadValues(bytes[offset..], buffer) == [value] + ReadValues(bytes[offset + n..], next)
  {
    n := Min(8, |bytes| - offset);
    ReadValuesStep(bytes, offset, buffer);
    next := bytes[offset..offset + n] + buffer[n..];
    assert Pow256(|next|) == 0x1_0000_0000_0000_0000;
    value := BigEndian(next);
  }

  /** A full value buffer becomes one more row. */
  lemma CompleteRow(groups: seq<seq<Bits64>>, pending: seq<Bits64>, a: nat, messageType: Label)
    requires a > 0 && |pending| == a && AllOfLength(groups, a)
    ensures AllOfLength(groups + [pending], a)
    ensures Flatten(groups) + pending == Flatten(groups + [pending]) + []
    ensures RowsOf(groups + [pending], messageType) == RowsOf(groups, messageType) + [Instance(pending, messageType)]
  {
    FlattenAppend(groups, pending);
  }

  /** The raw loader: the header, then the read loop. */
  method LoadRawInstances(bytes: seq<Byte>, messageType: Label) returns (r: Result<Instances, LoadError>)
    ensures r == DecodeRaw(bytes, messageType)
  {
    var a := HeaderAttributeCount(bytes);
    if a < 0 || a == IntMax {
      return Err(InvalidAttributeCount(a));
    }
    var attributes := CreateAttributes(a);
    var rows := ReadRows(bytes, Min(8, |bytes|), a, messageType);
    if rows.Err? {
      return Err(rows.error);
    }
    r := Ok(Instances(attributes, a, rows.value));
  }

  /** The read loop of the raw loader, from byte `start` on. */
  method ReadRows(bytes: seq<Byte>, start: nat, a: nat, messageType: Label) returns (r: Result<seq<Instance>, LoadError>)
    requires start <= |bytes|
    ensures r == RowsFromValues(ReadValues(bytes[start..], ZeroBytes(8)), a, messageType)
  {
    var buffer := ZeroBytes(8);
    var pending: seq<Bits64> := [];
    var rows: seq<Instance> := [];
    var offset := start;
    ghost var values := ReadValues(bytes[offset..], buffer);
    ghost var groups: seq<seq<Bits64>> := [];
    assert values == Flatten(groups) + pending + ReadValues(bytes[offset..], buffer);
    while offset < |bytes|
      invariant start <= offset <= |bytes|
      invariant |buffer| == 8
      invariant values == Flatten(groups) + pending + ReadValues(bytes[offset..], buffer)
      invariant a == 0 ==> groups == [] && pending == []
      invariant a > 0 ==> |pending| < a && AllOfLength(groups, a)
      invariant rows == RowsOf(groups, messageType)
      decreases |bytes| - offset
    {
      var n, next, value := ReadStep(bytes, offset, buffer);
      ghost var later := ReadValues(bytes[offset + n..], next);
      buffer := next;
      if |pending| == a {
        NoRoomFails(values, groups, pending, value, later, messageType);
        return Err(BufferOverflow);
      }
      groups, pending, rows := PutValue(groups, pending, rows, value, a, messageType, later, values);
      offset := offset + n;
    }
    assert bytes[offset..] == [];
    AllRowsRead(values, groups, pending, a, messageType);
    r := Ok(rows);
  }

  /** With no attribute the first value finds no room in the row. */
  lemma NoRoomFails(values: seq<Bits64>, groups: seq<seq<Bits64>>, pending: seq<Bits64>, value: Bits64,
                    later: seq<Bits64>, messageType: Label)
    requires groups == [] && pending == []
    requires values == Flatten(groups) + pending + ([value] + later)
    ensures RowsFromValues(values, 0, messageType) == Err(BufferOverflow)
  {
    assert values == [value] + later;
  }

  /** Once the input is consumed, the rows read are those the values make. */
  lemma AllRowsRead(values: seq<Bits64>, groups: seq<seq<Bits64>>, pending: seq<Bits64>, a: nat, messageType: Label)
    requires values == Flatten(groups) + pending + []
    requires a == 0 ==> groups == [] && pending == []
    requires a > 0 ==> |pending| < a && AllOfLength(groups, a)
    ensures RowsFromValues(values, a, messageType) == Ok(RowsOf(groups, messageType))
  {
    assert values == Flatten(groups) + pending;
    if a > 0 {
      GroupFlatten(groups, pending, a);
    }
  }

  /** One value put into the pending row; a full row is moved to the rows. */
  method PutValue(ghost groups: seq<seq<Bits64>>, pending: seq<Bits64>, rows: seq<Instance>, value: Bits64,
                  a: nat, messageType: Label, ghost later: seq<Bits64>, ghost values: seq<Bits64>)
    returns (ghost newGroups: seq<seq<Bits64>>, newPending: seq<Bits64>, newRows: seq<Instance>)
    requires a > 0 && |pending| < a && AllOfLength(groups, a) && rows == RowsOf(groups, messageType)
    requires values == Flatten(groups) + pending + ([value] + later)
    ensures values == Flatten(newGroups) + newPending + later
    ensures |newPending| < a && AllOfLength(newGroups, a) && newRows == RowsOf(newGroups, messageType)
  {
    Regroup(Flatten(groups), pending, value, later);
    newGroups, newPending, newRows := groups, pending + [value], rows;
    if |newPending| == a {
      CompleteRow(groups, newPending, a, messageType);
      newGroups := groups + [newPending];
      newRows := rows + [Instance(newPending, messageType)];
      newPending := [];
    }
  }

  lemma Regroup(done: seq<Bits64>, pending: seq<Bits64>, value: Bits64, later: seq<Bits64>)
    ensures done + pending + ([value] + later) == done + (pending + [value]) + later
  {
  }

  /** The two raw files read and merged: the attributes of the ham file, the
      ham rows, then the spam rows, class last. */
  function LoadHamSpam(hamBytes: seq<Byte>, spamBytes: seq<Byte>): Result<Instances, LoadError>
  {
    match DecodeRaw(hamBytes, Ham)
    case Err(e) => Err(e)
    case Ok(ham) =>
      match DecodeRaw(spamBytes, Spam)
      case Err(e) => Err(e)
      case Ok(spam) =>
        var featureAmount := Max0(|ham.attributes| - 1);
        Ok(Instances(Attributes(featureAmount), featureAmount, ham.rows + spam.rows))
  }

  /** The public `loadInstancesFromFile(ham, spam)`. */
  method LoadInstancesFromFile(hamBytes: seq<Byte>, spamBytes: seq<Byte>) returns (r: Result<Instances, LoadError>)
    ensures r == LoadHamSpam(hamBytes, spamBytes)
  {
    var ham := LoadRawInstances(hamBytes, Ham);
    if ham.Err? {
      return Err(ham.error);
    }
    var spam := LoadRawInstances(spamBytes, Spam);
    if spam.Err? {
      return Err(spam.error);
    }
    var attributes := CreateAttributes(|ham.value.attributes| - 1);
    r := Ok(Instances(attributes, |attributes| - 1, ham.value.rows + spam.value.rows));
  }

  // ---------------------------------------------------------------------------
  // Writing the raw format, the inverse of the loader
  // ---------------------------------------------------------------------------

  function EncodeValues(values: seq<Bits64>): seq<Byte>
  {
    if values == [] then [] else ToBigEndian(values[0], 8) + EncodeValues(values[1..])
  }

  /** A raw file: the instance count, the attribute count, then the rows. */
  function EncodeRaw(instanceCount: int, a: int, groups: seq<seq<Bits64>>): seq<Byte>
    requires IsInt32(instanceCount) && IsInt32(a)
  {
    Int32Bytes(instanceCount) + Int32Bytes(a) + EncodeValues(Flatten(groups))
  }

  lemma {:induction false} ReadEncodedValues(values: seq<Bits64>, buffer: seq<Byte>)
    requires |buffer| == 8
    ensures ReadValues(EncodeValues(values), buffer) == values
  {
    if values != [] {
      var payload := EncodeValues(values);
      var head := ToBigEndian(values[0], 8);
      assert payload == head + EncodeValues(values[1..]);
      assert |payload| >= 8;
      assert payload[..8] == head;
      assert payload[8..] == EncodeValues(values[1..]);
      assert head + buffer[8..] == head;
      BigEndianRoundTrip(values[0], 8);
      ReadEncodedValues(values[1..], head);
    }
  }

  /** Loading what was encoded gives back the rows, whatever the instance
      count of the header says. */
  lemma DecodeEncodeRaw(instanceCount: int, a: int, groups: seq<seq<Bits64>>, messageType: Label)
    requires IsInt32(instanceCount) && 0 < a < IntMax
    requires AllOfLength(groups, a)
    ensures DecodeRaw(EncodeRaw(instanceCount, a, groups), messageType)
         == Ok(Instances(Attributes(a), a, RowsOf(groups, messageType)))
  {
    var bytes := EncodeRaw(instanceCount, a, groups);
    Int32RoundTrip(instanceCount);
    Int32RoundTrip(a);
    var h1 := Int32Bytes(instanceCount);
    var h2 := Int32Bytes(a);
    var payload := EncodeValues(Flatten(groups));
    assert bytes == h1 + h2 + payload;
    assert |bytes| >= 8;
    assert bytes[4..8] == h2;
    assert ReadInto(bytes, 4, ZeroBytes(4)) == h2;
    assert bytes[8..] == payload;
    ReadEncodedValues(Flatten(groups), ZeroBytes(8));
    GroupFlatten(groups, [], a);
    assert Flatten(groups) + [] == Flatten(groups);
  }

  /** The merged data set holds the ham rows, then the spam rows. */
  lemma LoadedHamThenSpam(hamBytes: seq<Byte>, spamBytes: seq<Byte>)
    requires LoadHamSpam(hamBytes, spamBytes).Ok?
    ensures var d := LoadHamSpam(hamBytes, spamBytes).value;
      var ham := DecodeRaw(hamBytes, Ham).value;
      var spam := DecodeRaw(spamBytes, Spam).value;
      |d.rows| == |ham.rows| + |spam.rows|
      && (forall i :: 0 <= i < |d.rows| ==> (d.rows[i].messageType == Ham <==> i < |ham.rows|))
      && d.attributes == ham.attributes && d.classIndex == ham.classIndex
  {
  }

  // ---------------------------------------------------------------------------
  // CSV output
  // ---------------------------------------------------------------------------

  /** The column names of the header: each attribute's name, `class` at the
      class index. */
  function HeaderNames(d: Instances): (names: seq<string>)
    ensures |names| == |d.attributes|
  {
    seq(|d.attributes|, i requires 0 <= i < |d.attributes| =>
      if i == d.classIndex then "class" else d.attributes[i].name)
  }

  /** `saveInstancesToFile`: the header joined by commas, then one line per
      row as `render` (Weka's `toStringNoWeight`) writes it. */
  method SaveInstancesToFile(d: Instances, render: Instance -> string) returns (lines: seq<string>)
    ensures |lines| == |d.rows| + 1
    ensures lines[0] == Join(HeaderNames(d), ',')
    ensures forall i :: 0 <= i < |d.rows| ==> lines[i + 1] == render(d.rows[i])
  {
    var header := "";
    var attrIndex := 0;
    while attrIndex < |d.attributes|
      invariant 0 <= attrIndex <= |d.attributes|
      invariant header == Join(HeaderNames(d)[..attrIndex], ',')
    {
      var names := HeaderNames(d);
      assert names[..attrIndex + 1] == names[..attrIndex] + [names[attrIndex]];
      JoinAppend(names[..attrIndex], names[attrIndex], ',');
      if attrIndex > 0 {
        header := header + ",";
      }
      header := header + (if attrIndex != d.classIndex then d.attributes[attrIndex].name else "class");
      attrIndex := attrIndex + 1;
    }
    assert HeaderNames(d)[..|d.attributes|] == HeaderNames(d);
    lines := [header];
    var i := 0;
    while i < |d.rows|
      invariant 0 <= i <= |d.rows|
      invariant |lines| == i + 1 && lines[0] == header
      invariant forall k :: 0 <= k < i ==> lines[k + 1] == render(d.rows[k])
    {
      lines := lines + [render(d.rows[i])];
      i := i + 1;
    }
  }

  /** The header of a data set built by the loaders splits back into
      `x0 … x{n-1}, class`. */
  lemma LoadedHeaderRoundTrip(n: nat, rows: seq<Instance>)
    ensures Fields(Join(HeaderNames(Instances(Attributes(n), n, rows)), ','), ',')
         == seq(n + 1, i requires 0 <= i <= n => if i < n then FeatureName(i) else "class")
  {
    var names := HeaderNames(Instances(Attributes(n), n, rows));
    var expected := seq(n + 1, i requires 0 <= i <= n => if i < n then FeatureName(i) else "class");
    assert names == expected;
    forall i | 0 <= i < |names| ensures ',' !in names[i] {
      if i < n {
        assert names[i] == "x" + NatToString(i);
        assert forall k :: 1 <= k < |names[i]| ==> names[i][k] == NatToString(i)[k - 1];
      }
    }
    FieldsJoin(names, ',');
  }
}
