/** `DataSetHelper`: the fixed list of experiment folders under a base folder,
    and the shortening of long path segments for display. The separator is
    `File.separator`, a single character. */
module DataSetFolders {
  import opened JavaText

  const DataSets: seq<string> := ["2017_BASE2_LING_SPAM", "2017_BASE2_SPAM_ASSASSIN", "2017_BASE2_TREC", "2017_BASE2_UNIFEI"]

  const StatMethods: seq<string> := ["CHI2", "FD", "MI"]

  const FeatureAmounts: seq<int> := [8, 16, 32, 64, 128, 256, 512]

  /** `base/dataSet/statMethod/amount`. */
  function FolderPath(base: string, sep: char, dataSet: string, statMethod: string, amount: int): string
  {
    base + [sep] + dataSet + [sep] + statMethod + [sep] + IntToString(amount)
  }

  /** The 84 folders in the order of the triple loop: data set outermost,
      statistic method in the middle, feature amount innermost. */
  function Folders(base: string, sep: char): (r: seq<string>)
    ensures |r| == |DataSets| * |StatMethods| * |FeatureAmounts| == 84
  {
    seq(84, i requires 0 <= i < 84 => FolderAt(base, sep, i))
  }

  /** Entry `i` of the list: data set `i / 21`, method `i / 7 % 3`, amount `i % 7`. */
  function FolderAt(base: string, sep: char, i: int): string
    requires 0 <= i < 84
  {
    FolderPath(base, sep, DataSets[i / 21], StatMethods[i / 7 % 3], FeatureAmounts[i % 7])
  }

  lemma FolderIndex(d: int, s: int, f: int)
    requires 0 <= d < 4 && 0 <= s < 3 && 0 <= f < 7
    ensures var i := 21 * d + 7 * s + f;
      0 <= i < 84 && i / 21 == d && i / 7 % 3 == s && i % 7 == f
  {
    var i := 21 * d + 7 * s + f;
    assert i / 7 == 3 * d + s;
    assert i / 21 == d;
  }

  /** `getFolders`: the folders, or an `IOException` when the base folder is
      missing or is not a directory (`present`, `isDirectory`: what the file
      system says about `base`). */
  method GetFolders(base: string, sep: char, present: bool, isDirectory: bool) returns (r: Option<seq<string>>)
    ensures r.None? <==> !present || !isDirectory
    ensures r.Some? ==> r.value == Folders(base, sep)
  {
    if !present || (present && !isDirectory) {
      return None;
    }
    var folders: seq<string> := [];
    var d := 0;
    while d < |DataSets|
      invariant 0 <= d <= 4
      invariant folders == Folders(base, sep)[..21 * d]
    {
      var s := 0;
      while s < |StatMethods|
        invariant 0 <= s <= 3
        invariant folders == Folders(base, sep)[..21 * d + 7 * s]
      {
        var f := 0;
        while f < |FeatureAmounts|
          invariant 0 <= f <= 7
          invariant folders == Folders(base, sep)[..21 * d + 7 * s + f]
        {
          FoldersStep(base, sep, d, s, f, folders);
          folders := folders + [FolderPath(base, sep, DataSets[d], StatMethods[s], FeatureAmounts[f])];
          f := f + 1;
        }
        s := s + 1;
      }
      d := d + 1;
    }
    return Some(folders);
  }

  lemma FoldersStep(base: string, sep: char, d: int, s: int, f: int, folders: seq<string>)
    requires 0 <= d < 4 && 0 <= s < 3 && 0 <= f < 7
    requires folders == Folders(base, sep)[..21 * d + 7 * s + f]
    ensures folders + [FolderPath(base, sep, DataSets[d], StatMethods[s], FeatureAmounts[f])]
         == Folders(base, sep)[..21 * d + 7 * s + f + 1]
  {
    FolderIndex(d, s, f);
    var k := 21 * d + 7 * s + f;
    assert Folders(base, sep)[k] == FolderAt(base, sep, k);
    TakeOneMore(Folders(base, sep), k);
  }

  lemma TakeOneMore<T>(xs: seq<T>, k: nat)
    requires k < |xs|
    ensures xs[..k + 1] == xs[..k] + [xs[k]]
  {
  }

  /** Entry `21 d + 7 s + f` is the folder of data set `d`, method `s` and
      feature amount `f`. */
  lemma FoldersOrder(base: string, sep: char, d: int, s: int, f: int)
    requires 0 <= d < 4 && 0 <= s < 3 && 0 <= f < 7
    ensures Folders(base, sep)[21 * d + 7 * s + f]
         == FolderPath(base, sep, DataSets[d], StatMethods[s], FeatureAmounts[f])
  {
    FolderIndex(d, s, f);
  }

  /** A separator that occurs in none of the fixed names. */
  predicate SeparatorOk(sep: char)
  {
    sep != '-' && !IsDigit(sep) && (forall i :: 0 <= i < |DataSets| ==> sep !in DataSets[i])
    && (forall i :: 0 <= i < |StatMethods| ==> sep !in StatMethods[i])
  }

  lemma PathFields(base: string, sep: char, ds: string, sm: string, amount: int)
    requires sep != '-' && !IsDigit(sep) && sep !in ds && sep !in sm
    ensures Fields(FolderPath(base, sep, ds, sm, amount), sep)
         == Fields(base, sep) + [ds, sm, IntToString(amount)]
  {
    var am := IntToString(amount);
    IntToStringChars(amount, sep);
    var tail := ds + [sep] + (sm + [sep] + am);
    assert FolderPath(base, sep, ds, sm, amount) == base + [sep] + tail;
    FieldsAppend(base, tail, sep);
    FieldsOfPrefix(ds, sm + [sep] + am, sep);
    FieldsOfPrefix(sm, am, sep);
    FieldsOfPrefix(am, [], sep);
  }

  /** The fields of a folder path: those of the base, then the data set, the
      method and the amount, which reads back as the number it was written
      from. */
  lemma FolderPathFields(base: string, sep: char, d: int, s: int, f: int)
    requires SeparatorOk(sep)
    requires 0 <= d < 4 && 0 <= s < 3 && 0 <= f < 7
    ensures Fields(FolderPath(base, sep, DataSets[d], StatMethods[s], FeatureAmounts[f]), sep)
         == Fields(base, sep) + [DataSets[d], StatMethods[s], IntToString(FeatureAmounts[f])]
    ensures ParseInt(IntToString(FeatureAmounts[f])) == Some(FeatureAmounts[f])
  {
    assert sep !in DataSets[d] && sep !in StatMethods[s];
    PathFields(base, sep, DataSets[d], StatMethods[s], FeatureAmounts[f]);
    ParseIntToString(FeatureAmounts[f]);
  }

  lemma IndexDecompose(i: int)
    requires 0 <= i < 84
    ensures i == 21 * (i / 21) + 7 * (i / 7 % 3) + i % 7
  {
    var q, r := i / 7, i % 7;
    assert i == 7 * q + r;
    var t, u := q / 3, q % 3;
    assert q == 3 * t + u;
    assert i == 21 * t + 7 * u + r;
    assert i / 21 == t;
  }

  lemma DataSetsDistinct(d1: int, d2: int)
    requires 0 <= d1 < 4 && 0 <= d2 < 4 && DataSets[d1] == DataSets[d2]
    ensures d1 == d2
  {
    assert |DataSets[0]| == 20 && |DataSets[1]| == 24 && |DataSets[2]| == 15 && |DataSets[3]| == 17;
  }

  lemma StatMethodsDistinct(s1: int, s2: int)
    requires 0 <= s1 < 3 && 0 <= s2 < 3 && StatMethods[s1] == StatMethods[s2]
    ensures s1 == s2
  {
    assert StatMethods[0][0] == 'C' && StatMethods[1][0] == 'F' && StatMethods[2][0] == 'M';
  }

  lemma FeatureAmountsDistinct(f1: int, f2: int)
    requires 0 <= f1 < 7 && 0 <= f2 < 7 && FeatureAmounts[f1] == FeatureAmounts[f2]
    ensures f1 == f2
  {
  }

  /** Two folder paths over the same base are equal only for the same data
      set, method and amount. */
  lemma FolderPathInjective(base: string, sep: char, d1: int, s1: int, f1: int, d2: int, s2: int, f2: int)
    requires SeparatorOk(sep)
    requires 0 <= d1 < 4 && 0 <= s1 < 3 && 0 <= f1 < 7
    requires 0 <= d2 < 4 && 0 <= s2 < 3 && 0 <= f2 < 7
    requires FolderPath(base, sep, DataSets[d1], StatMethods[s1], FeatureAmounts[f1])
          == FolderPath(base, sep, DataSets[d2], StatMethods[s2], FeatureAmounts[f2])
    ensures d1 == d2 && s1 == s2 && f1 == f2
  {
    FolderPathFields(base, sep, d1, s1, f1);
    FolderPathFields(base, sep, d2, s2, f2);
    var n := |Fields(base, sep)|;
    var x := Fields(FolderPath(base, sep, DataSets[d1], StatMethods[s1], FeatureAmounts[f1]), sep);
    assert x[n] == DataSets[d1] && x[n] == DataSets[d2];
    assert x[n + 1] == StatMethods[s1] && x[n + 1] == StatMethods[s2];
    assert x[n + 2] == IntToString(FeatureAmounts[f1]) && x[n + 2] == IntToString(FeatureAmounts[f2]);
    DataSetsDistinct(d1, d2);
    StatMethodsDistinct(s1, s2);
    IntToStringInjective(FeatureAmounts[f1], FeatureAmounts[f2]);
    FeatureAmountsDistinct(f1, f2);
  }

  /** The 84 folders are pairwise distinct. */
  lemma FoldersDistinct(base: string, sep: char, i: int, j: int)
    requires SeparatorOk(sep)
    requires 0 <= i < 84 && 0 <= j < 84 && i != j
    ensures Folders(base, sep)[i] != Folders(base, sep)[j]
  {
    if Folders(base, sep)[i] == Folders(base, sep)[j] {
      assert FolderAt(base, sep, i) == FolderAt(base, sep, j);
      FolderPathInjective(base, sep, i / 21, i / 7 % 3, i % 7, j / 21, j / 7 % 3, j % 7);
      IndexDecompose(i);
      IndexDecompose(j);
      assert false;
    }
  }

  // ---------------------------------------------------------------------------
  // Shortening folder names
  // ---------------------------------------------------------------------------

  /** The `noneMatch` test: `part` is none of the data-set names. */
  predicate NoneMatch(part: string)
  {
    forall i :: 0 <= i < |DataSets| ==> DataSets[i] != part
  }

  /** A segment that is rewritten: not a data-set name, and longer than
      `maxLength`. */
  predicate Qualifies(part: string, maxLength: int)
  {
    NoneMatch(part) && |part| > maxLength
  }

  /** The rewrite over the segments `parts`, in order: every occurrence of a
      qualifying segment in the current name becomes its first `maxLength`
      characters and `~`. A negative `maxLength` makes `substring` fail on
      the first qualifying segment. */
  function ShortenSegments(folder: string, parts: seq<string>, maxLength: int): Option<string>
    decreases |parts|
  {
    if parts == [] then Some(folder)
    else if !Qualifies(parts[0], maxLength) then ShortenSegments(folder, parts[1..], maxLength)
    else if maxLength < 0 then None
    else ShortenSegments(ReplaceAll(folder, parts[0], parts[0][..maxLength] + "~"), parts[1..], maxLength)
  }

  /** `shortenFolderName(folder, maxLength)`: the segments are those of the
      original name, split on the separator. */
  function Shortened(folder: string, maxLength: int, sep: char): Option<string>
  {
    ShortenSegments(folder, JavaSplit(folder, sep), maxLength)
  }

  /** The loop of `shortenFolderName(folder, maxLength)`. */
  method ShortenFolderNameTo(folder: string, maxLength: int, sep: char) returns (r: Option<string>)
    ensures r == Shortened(folder, maxLength, sep)
  {
    var parts := JavaSplit(folder, sep);
    var current := folder;
    var k := 0;
    while k < |parts|
      invariant 0 <= k <= |parts|
      invariant ShortenSegments(current, parts[k..], maxLength) == Shortened(folder, maxLength, sep)
    {
      var part := parts[k];
      assert parts[k..][1..] == parts[k + 1..];
      if NoneMatch(part) && |part| > maxLength {
        if maxLength < 0 {
          return None;
        }
        current := ReplaceAll(current, part, part[..maxLength] + "~");
      }
      k := k + 1;
    }
    return Some(current);
  }

  /** `shortenFolderName(folder)`: segments longer than 4; never fails. */
  method ShortenFolderName(folder: string, sep: char) returns (r: string)
    ensures Shortened(folder, 4, sep) == Some(r)
  {
    var shortened := ShortenFolderNameTo(folder, 4, sep);
    ShortenedFailsOnlyBelowZero(folder, 4, sep);
    r := shortened.value;
  }

  /** Shortening fails exactly when `maxLength` is negative and some segment
      is not a data-set name. */
  lemma {:induction false} ShortenSegmentsFails(folder: string, parts: seq<string>, maxLength: int)
    ensures ShortenSegments(folder, parts, maxLength).None? <==>
      maxLength < 0 && exists i :: 0 <= i < |parts| && NoneMatch(parts[i])
    decreases |parts|
  {
    if parts != [] {
      if !Qualifies(parts[0], maxLength) {
        ShortenSegmentsFails(folder, parts[1..], maxLength);
        if maxLength < 0 {
          assert !NoneMatch(parts[0]) by {
            assert |parts[0]| > maxLength;
          }
          forall i | 0 <= i < |parts| && NoneMatch(parts[i]) ensures exists k :: 0 <= k < |parts[1..]| && NoneMatch(parts[1..][k]) {
            assert i != 0;
            assert parts[1..][i - 1] == parts[i];
          }
          forall k | 0 <= k < |parts[1..]| && NoneMatch(parts[1..][k]) ensures exists i :: 0 <= i < |parts| && NoneMatch(parts[i]) {
            assert parts[k + 1] == parts[1..][k];
          }
        }
      } else if maxLength >= 0 {
        ShortenSegmentsFails(ReplaceAll(folder, parts[0], parts[0][..maxLength] + "~"), parts[1..], maxLength);
      }
    }
  }

  lemma ShortenedFailsOnlyBelowZero(folder: string, maxLength: int, sep: char)
    ensures Shortened(folder, maxLength, sep).None? <==>
      maxLength < 0 && exists i :: 0 <= i < |JavaSplit(folder, sep)| && NoneMatch(JavaSplit(folder, sep)[i])
  {
    ShortenSegmentsFails(folder, JavaSplit(folder, sep), maxLength);
  }

  /** A name none of whose segments qualifies is returned unchanged. */
  lemma {:induction false} ShortenSegmentsUnchanged(folder: string, parts: seq<string>, maxLength: int)
    requires forall i :: 0 <= i < |parts| ==> !Qualifies(parts[i], maxLength)
    ensures ShortenSegments(folder, parts, maxLength) == Some(folder)
    decreases |parts|
  {
    if parts != [] {
      assert !Qualifies(parts[0], maxLength);
      assert forall i :: 0 <= i < |parts[1..]| ==> parts[1..][i] == parts[i + 1];
      ShortenSegmentsUnchanged(folder, parts[1..], maxLength);
    }
  }

  lemma ShortenedUnchanged(folder: string, maxLength: int, sep: char)
    requires forall i :: 0 <= i < |JavaSplit(folder, sep)| ==> !Qualifies(JavaSplit(folder, sep)[i], maxLength)
    ensures Shortened(folder, maxLength, sep) == Some(folder)
  {
    ShortenSegmentsUnchanged(folder, JavaSplit(folder, sep), maxLength);
  }

  /** Shortening never lengthens a name. */
  lemma {:induction false} ShortenSegmentsNotLonger(folder: string, parts: seq<string>, maxLength: int)
    requires ShortenSegments(folder, parts, maxLength).Some?
    ensures |ShortenSegments(folder, parts, maxLength).value| <= |folder|
    decreases |parts|
  {
    if parts != [] {
      if !Qualifies(parts[0], maxLength) {
        ShortenSegmentsNotLonger(folder, parts[1..], maxLength);
      } else {
        var p := parts[0];
        var next := ReplaceAll(folder, p, p[..maxLength] + "~");
        ReplaceAllNotLonger(folder, p, p[..maxLength] + "~");
        ShortenSegmentsNotLonger(next, parts[1..], maxLength);
      }
    }
  }

  lemma ShortenedNotLonger(folder: string, maxLength: int, sep: char)
    requires Shortened(folder, maxLength, sep).Some?
    ensures |Shortened(folder, maxLength, sep).value| <= |folder|
  {
    ShortenSegmentsNotLonger(folder, JavaSplit(folder, sep), maxLength);
  }

  lemma LeadingSegment(p: string, rest: string, sep: char)
    requires p != [] && sep !in p
    ensures |JavaSplit(p + [sep] + rest, sep)| >= 1 && JavaSplit(p + [sep] + rest, sep)[0] == p
  {
    var s := p + [sep] + rest;
    assert s[|p|] == sep;
    FieldsOfPrefix(p, rest, sep);
    assert Fields(s, sep)[0] == p;
  }

  lemma ReplaceLeading(p: string, v: string, r: string)
    requires p != []
    ensures ReplaceAll(p + v, p, r) == r + ReplaceAll(v, p, r)
  {
    ReplaceAllFirst([], p, v, r);
    assert [] + p + v == p + v;
    assert [] + r + ReplaceAll(v, p, r) == r + ReplaceAll(v, p, r);
  }

  /** A qualifying leading segment is cut to its first `maxLength`
      characters and `~`, every later occurrence of it is cut the same way,
      and the remaining segments are then processed. */
  lemma ShortenedLeadingSegment(p: string, rest: string, maxLength: int, sep: char)
    requires 0 <= maxLength < |p| && NoneMatch(p) && sep !in p
    ensures var parts := JavaSplit(p + [sep] + rest, sep);
      var r := p[..maxLength] + "~";
      |parts| >= 1 &&
      Shortened(p + [sep] + rest, maxLength, sep)
        == ShortenSegments(r + ReplaceAll([sep] + rest, p, r), parts[1..], maxLength)
  {
    LeadingSegment(p, rest, sep);
    var r := p[..maxLength] + "~";
    ReplaceLeading(p, [sep] + rest, r);
    assert p + [sep] + rest == p + ([sep] + rest);
  }
}
