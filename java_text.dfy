/** Value-level models of the few pieces of the Java platform that the program
    relies on for text: decimal conversion of `int`s (`"" + i`, `Integer.parseInt`),
    `String.split` on a single character, literal replacement of substrings, and
    the numeric conversions `(int)` and `Math.round` on exact reals. */
module JavaText {

  datatype Option<+T> = None | Some(value: T)

  datatype Result<+T, +E> = Ok(value: T) | Err(error: E)

  const IntMin: int := -0x8000_0000
  const IntMax: int := 0x7FFF_FFFF

  predicate IsInt32(x: int) { IntMin <= x <= IntMax }

  function Max0(x: int): nat
  {
    if x < 0 then 0 else x
  }

  function Min(x: int, y: int): int
  {
    if x < y then x else y
  }

  // ---------------------------------------------------------------------------
  // Decimal digits
  // ---------------------------------------------------------------------------

  predicate IsDigit(c: char) { '0' <= c <= '9' }

  function DigitChar(d: nat): (c: char)
    requires d < 10
    ensures IsDigit(c) && (c as int) - ('0' as int) == d
  {
    (('0' as int) + d) as char
  }

  function DigitValue(c: char): (d: nat)
    requires IsDigit(c)
    ensures d < 10 && DigitChar(d) == c
  {
    (c as int) - ('0' as int)
  }

  predicate AllDigits(s: string) { forall i :: 0 <= i < |s| ==> IsDigit(s[i]) }

  /** The number a string of decimal digits denotes (leading zeros allowed). */
  function DigitsValue(s: string): nat
    requires AllDigits(s)
  {
    if s == [] then 0 else DigitsValue(s[..|s| - 1]) * 10 + DigitValue(s[|s| - 1])
  }

  /** Decimal rendering of a natural number, as Java's `String.valueOf`. */
  function NatToString(n: nat): (s: string)
    ensures |s| >= 1 && AllDigits(s)
    decreases n
  {
    if n < 10 then [DigitChar(n)] else NatToString(n / 10) + [DigitChar(n % 10)]
  }

  /** Decimal rendering of an integer: a minus sign for negative values. */
  function IntToString(x: int): (s: string)
    ensures |s| >= 1
    ensures (s[0] == '-') <==> x < 0
  {
    if x < 0 then "-" + NatToString(-x) else NatToString(x)
  }

  lemma {:induction false} NatToStringValue(n: nat)
    ensures DigitsValue(NatToString(n)) == n
    decreases n
  {
    var s := NatToString(n);
    if n >= 10 {
      NatToStringValue(n / 10);
      assert s[..|s| - 1] == NatToString(n / 10);
    }
  }

  lemma NatToStringInjective(m: nat, n: nat)
    requires NatToString(m) == NatToString(n)
    ensures m == n
  {
    NatToStringValue(m);
    NatToStringValue(n);
  }

  /** A decimal rendering holds only digits and a leading minus sign. */
  lemma IntToStringChars(x: int, c: char)
    requires c != '-' && !IsDigit(c)
    ensures c !in IntToString(x)
  {
    var s := IntToString(x);
    if x < 0 {
      assert s == "-" + NatToString(-x);
      assert forall i :: 1 <= i < |s| ==> s[i] == NatToString(-x)[i - 1];
    }
  }

  /** Different integers are written differently, so anything keyed by the
      decimal text of an integer (a file name, a header) keeps them apart. */
  lemma IntToStringInjective(x: int, y: int)
    requires IntToString(x) == IntToString(y)
    ensures x == y
  {
    if x < 0 {
      assert IntToString(x)[1..] == NatToString(-x);
      assert IntToString(y)[1..] == NatToString(-y);
      NatToStringInjective(-x, -y);
    } else {
      NatToStringInjective(x, y);
    }
  }

  /** `Integer.parseInt(s)` (radix 10): an optional leading `+` or `-`, then at
      least one digit; the value must fit in 32 bits. Any other input raises
      `NumberFormatException`, modelled as `None`. */
  function ParseInt(s: string): (r: Option<int>)
    ensures r.Some? ==> IsInt32(r.value)
  {
    if s == [] then None
    else
      var negative := s[0] == '-';
      var body := if s[0] == '-' || s[0] == '+' then s[1..] else s;
      if body == [] || !AllDigits(body) then None
      else
        var v := if negative then -(DigitsValue(body) as int) else DigitsValue(body);
        if IsInt32(v) then Some(v) else None
  }

  /** `Integer.parseInt` reads back what `"" + x` writes, for every 32-bit `x`. */
  lemma ParseIntToString(x: int)
    requires IsInt32(x)
    ensures ParseInt(IntToString(x)) == Some(x)
  {
    var s := IntToString(x);
    if x < 0 {
      var body := NatToString(-x);
      assert s[0] == '-' && s[1..] == body;
      NatToStringValue(-x);
      assert ParseInt(s) == Some(-(DigitsValue(body) as int));
    } else {
      var body := NatToString(x);
      assert IsDigit(body[0]);
      NatToStringValue(x);
      assert ParseInt(body) == Some(DigitsValue(body));
    }
  }

  /** `String.lastIndexOf` for one character: the last position holding `c`,
      or -1 when there is none. */
  function LastIndexOf(s: string, c: char): (i: int)
    ensures -1 <= i < |s|
    ensures i >= 0 ==> s[i] == c
    ensures forall k :: i < k < |s| ==> s[k] != c
    ensures i == -1 <==> c !in s
  {
    if s == [] then -1
    else if s[|s| - 1] == c then |s| - 1
    else LastIndexOf(s[..|s| - 1], c)
  }

  // ---------------------------------------------------------------------------
  // Splitting and joining on one character
  // ---------------------------------------------------------------------------

  /** All the fields of `s` between occurrences of `c`, empty ones included:
      there is always one more field than there are occurrences of `c`. */
  function Fields(s: string, c: char): (r: seq<string>)
    ensures |r| >= 1
  {
    if s == [] then [[]]
    else
      var rest := Fields(s[1..], c);
      if s[0] == c then [[]] + rest else [[s[0]] + rest[0]] + rest[1..]
  }

  function Join(xs: seq<string>, c: char): string
  {
    if xs == [] then [] else if |xs| == 1 then xs[0] else xs[0] + [c] + Join(xs[1..], c)
  }

  /** Joining one more part appends the separator and that part. */
  lemma {:induction false} JoinAppend(xs: seq<string>, x: string, c: char)
    ensures Join(xs + [x], c) == if xs == [] then x else Join(xs, c) + [c] + x
    decreases |xs|
  {
    if |xs| >= 1 {
      assert (xs + [x])[1..] == xs[1..] + [x];
      JoinAppend(xs[1..], x, c);
    }
  }

  lemma {:induction false} JoinFields(s: string, c: char)
    ensures Join(Fields(s, c), c) == s
  {
    if s != [] {
      JoinFields(s[1..], c);
      var rest := Fields(s[1..], c);
      if s[0] == c {
        assert Fields(s, c) == [[]] + rest;
        JoinSeparatorStep(s, rest, c);
      } else {
        assert Fields(s, c) == [[s[0]] + rest[0]] + rest[1..];
        JoinCharStep(s, rest, c);
      }
    }
  }

  /** Joining a leading empty field puts the separator in front. */
  lemma JoinSeparatorStep(s: string, rest: seq<string>, c: char)
    requires s != [] && s[0] == c && |rest| >= 1 && Join(rest, c) == s[1..]
    ensures Join([[]] + rest, c) == s
  {
    var r := [[]] + rest;
    assert r[0] == [] && r[1..] == rest;
    assert s == [c] + s[1..];
  }

  /** Joining with a longer first field puts its character in front. */
  lemma JoinCharStep(s: string, rest: seq<string>, c: char)
    requires s != [] && |rest| >= 1 && Join(rest, c) == s[1..]
    ensures Join([[s[0]] + rest[0]] + rest[1..], c) == s
  {
    var r := [[s[0]] + rest[0]] + rest[1..];
    assert r[0] == [s[0]] + rest[0] && r[1..] == rest[1..];
    assert s == [s[0]] + s[1..];
    if |rest| > 1 {
      assert Join(r, c) == [s[0]] + rest[0] + [c] + Join(rest[1..], c);
    }
  }

  lemma {:induction false} FieldsOfPrefix(x: string, rest: string, c: char)
    requires c !in x
    ensures Fields(x + [c] + rest, c) == [x] + Fields(rest, c)
    ensures Fields(x, c) == [x]
    decreases |x|
  {
    if x == [] {
      assert (x + [c] + rest) == [c] + rest;
      assert ([c] + rest)[1..] == rest;
    } else {
      assert (x + [c] + rest)[1..] == x[1..] + [c] + rest;
      FieldsOfPrefix(x[1..], rest, c);
      assert [x[0]] + x[1..] == x;
    }
  }

  /** Splitting what `Join` wrote gives the parts back, provided no part holds
      the separator. */
  lemma {:induction false} FieldsJoin(xs: seq<string>, c: char)
    requires |xs| >= 1
    requires forall i :: 0 <= i < |xs| ==> c !in xs[i]
    ensures Fields(Join(xs, c), c) == xs
  {
    if |xs| == 1 {
      FieldsOfPrefix(xs[0], [], c);
    } else {
      FieldsJoin(xs[1..], c);
      FieldsOfPrefix(xs[0], Join(xs[1..], c), c);
      assert [xs[0]] + xs[1..] == xs;
    }
  }

  /** Splitting at a separator splits the fields: the fields of `x` followed by
      the fields of `y`. */
  lemma {:induction false} FieldsAppend(x: string, y: string, c: char)
    ensures Fields(x + [c] + y, c) == Fields(x, c) + Fields(y, c)
    decreases |x|
  {
    if x == [] {
      assert x + [c] + y == [c] + y;
      assert ([c] + y)[1..] == y;
    } else {
      assert (x + [c] + y)[1..] == x[1..] + [c] + y;
      FieldsAppend(x[1..], y, c);
      FieldsConsStep(x, y, c);
    }
  }

  /** The inductive step of `FieldsAppend`: one more leading character. */
  lemma FieldsConsStep(x: string, y: string, c: char)
    requires x != []
    requires Fields(x[1..] + [c] + y, c) == Fields(x[1..], c) + Fields(y, c)
    ensures Fields(x + [c] + y, c) == Fields(x, c) + Fields(y, c)
  {
    var s := x + [c] + y;
    assert s[0] == x[0] && s[1..] == x[1..] + [c] + y;
    if x[0] == c {
      FieldsSeparatorStep(s, x, Fields(y, c), c);
    } else {
      FieldsCharStep(s, x, Fields(y, c), c);
    }
  }

  lemma FieldsSeparatorStep(s: string, x: string, fy: seq<string>, c: char)
    requires s != [] && x != [] && s[0] == c && x[0] == c
    requires Fields(s[1..], c) == Fields(x[1..], c) + fy
    ensures Fields(s, c) == Fields(x, c) + fy
  {
    assert Fields(s, c) == [[]] + Fields(s[1..], c);
    assert Fields(x, c) == [[]] + Fields(x[1..], c);
    FieldsAssoc([[]], Fields(x[1..], c), fy);
  }

  lemma FieldsAssoc(h: seq<string>, fx: seq<string>, fy: seq<string>)
    ensures h + (fx + fy) == (h + fx) + fy
  {
  }

  lemma FieldsCharStep(s: string, x: string, fy: seq<string>, c: char)
    requires s != [] && x != [] && s[0] == x[0] && x[0] != c
    requires Fields(s[1..], c) == Fields(x[1..], c) + fy
    ensures Fields(s, c) == Fields(x, c) + fy
  {
    HeadMerge(x[0], Fields(s[1..], c), Fields(x[1..], c), fy);
  }

  /** Prefixing the first field by `a` commutes with appending more fields. */
  lemma HeadMerge(a: char, rest: seq<string>, fx: seq<string>, fy: seq<string>)
    requires |fx| >= 1 && rest == fx + fy
    ensures [[a] + rest[0]] + rest[1..] == ([[a] + fx[0]] + fx[1..]) + fy
  {
    assert rest[0] == fx[0];
    assert rest[1..] == fx[1..] + fy;
  }

  /** Drops empty strings from the end, as `String.split` with limit 0 does. */
  function StripTrailingEmpty(xs: seq<string>): (r: seq<string>)
    ensures |r| <= |xs| && r == xs[..|r|]
    ensures r == [] || r[|r| - 1] != []
    ensures forall i :: |r| <= i < |xs| ==> xs[i] == []
  {
    if xs == [] then []
    else if xs[|xs| - 1] == [] then StripTrailingEmpty(xs[..|xs| - 1])
    else xs
  }

  /** `s.split(c)` for a character that is not a regular-expression
      metacharacter: if `c` does not occur the result is `[s]`; otherwise the
      fields, with trailing empty ones removed. */
  function JavaSplit(s: string, c: char): seq<string>
  {
    if c !in s then [s] else StripTrailingEmpty(Fields(s, c))
  }

  /** Appending more fields never changes the leading ones: removing trailing
      empty strings from a longer list keeps the stripped shorter list as a
      prefix. */
  lemma StripTrailingEmptyPrefix(xs: seq<string>, ys: seq<string>)
    ensures StripTrailingEmpty(xs) <= StripTrailingEmpty(xs + ys)
    decreases |ys|
  {
    if ys != [] {
      var zs := xs + ys;
      if ys[|ys| - 1] == [] {
        assert zs[|zs| - 1] == [];
        assert zs[..|zs| - 1] == xs + ys[..|ys| - 1];
        StripTrailingEmptyPrefix(xs, ys[..|ys| - 1]);
      } else {
        assert zs[|zs| - 1] == ys[|ys| - 1];
        assert StripTrailingEmpty(zs) == zs;
        var a := StripTrailingEmpty(xs);
        assert a == xs[..|a|];
      }
    } else {
      assert xs + ys == xs;
    }
  }

  // ---------------------------------------------------------------------------
  // Literal replacement
  // ---------------------------------------------------------------------------

  /** Every occurrence of the character `c` replaced by the text `with`. */
  function ReplaceChar(s: string, c: char, with: string): (r: string)
    ensures c !in s ==> r == s
    ensures c !in with ==> c !in r
  {
    if s == [] then []
    else (if s[0] == c then with else [s[0]]) + ReplaceChar(s[1..], c, with)
  }

  /** Replacement works piecewise on a concatenation. */
  lemma {:induction false} ReplaceCharAppend(a: string, b: string, c: char, with: string)
    ensures ReplaceChar(a + b, c, with) == ReplaceChar(a, c, with) + ReplaceChar(b, c, with)
    decreases |a|
  {
    if a != [] {
      var s := a + b;
      assert s[0] == a[0] && s[1..] == a[1..] + b;
      ReplaceCharAppend(a[1..], b, c, with);
      var h := if a[0] == c then with else [a[0]];
      assert ReplaceChar(s, c, with) == h + ReplaceChar(s[1..], c, with);
      assert ReplaceChar(a, c, with) == h + ReplaceChar(a[1..], c, with);
      ConcatAssoc(h, ReplaceChar(a[1..], c, with), ReplaceChar(b, c, with));
    } else {
      assert a + b == b;
    }
  }

  lemma ConcatAssoc(h: string, x: string, y: string)
    ensures h + (x + y) == (h + x) + y
  {
  }

  /** Does `p` occur in `s` starting at index `i`? */
  predicate OccursAt(s: string, p: string, i: nat)
  {
    i + |p| <= |s| && s[i..i + |p|] == p
  }

  predicate Occurs(s: string, p: string)
  {
    exists i :: 0 <= i <= |s| && OccursAt(s, p, i)
  }

  /** Left-to-right, non-overlapping replacement of the non-empty text `p` by
      `r` (the literal reading of `String.replaceAll`). */
  function ReplaceAll(s: string, p: string, r: string): string
    requires p != []
    decreases |s|
  {
    if |s| < |p| then s
    else if s[..|p|] == p then r + ReplaceAll(s[|p|..], p, r)
    else [s[0]] + ReplaceAll(s[1..], p, r)
  }

  lemma {:induction false} ReplaceAllAbsent(s: string, p: string, r: string)
    requires p != []
    requires !Occurs(s, p)
    ensures ReplaceAll(s, p, r) == s
    decreases |s|
  {
    if |s| >= |p| {
      assert !OccursAt(s, p, 0);
      assert s[..|p|] != p;
      forall i | 0 <= i <= |s[1..]| ensures !OccursAt(s[1..], p, i) {
        assert !OccursAt(s, p, i + 1);
        if i + |p| <= |s[1..]| {
          assert s[1..][i..i + |p|] == s[i + 1..i + 1 + |p|];
        }
      }
      ReplaceAllAbsent(s[1..], p, r);
      assert [s[0]] + s[1..] == s;
    }
  }

  /** The first occurrence is the one replaced: if `p` first occurs in `s`
      right after the prefix `u`, the result is `u`, then `r`, then the
      replacement applied to what follows that occurrence. */
  lemma {:induction false} ReplaceAllFirst(u: string, p: string, v: string, r: string)
    requires p != []
    requires forall i :: 0 <= i < |u| ==> !OccursAt(u + p + v, p, i)
    ensures ReplaceAll(u + p + v, p, r) == u + r + ReplaceAll(v, p, r)
    decreases |u|
  {
    var s := u + p + v;
    if u == [] {
      assert s == p + v;
      assert s[..|p|] == p;
      assert s[|p|..] == v;
    } else {
      assert !OccursAt(s, p, 0);
      assert s[..|p|] != p;
      assert s[1..] == u[1..] + p + v;
      forall i | 0 <= i < |u[1..]| ensures !OccursAt(u[1..] + p + v, p, i) {
        assert !OccursAt(s, p, i + 1);
        assert s[1..][i..i + |p|] == s[i + 1..i + 1 + |p|];
      }
      ReplaceAllFirst(u[1..], p, v, r);
      assert [u[0]] + (u[1..] + r + ReplaceAll(v, p, r)) == u + r + ReplaceAll(v, p, r);
    }
  }

  /** Replacing a text by one no longer never lengthens the string. */
  lemma {:induction false} ReplaceAllNotLonger(s: string, p: string, r: string)
    requires p != [] && |r| <= |p|
    ensures |ReplaceAll(s, p, r)| <= |s|
    decreases |s|
  {
    if |s| >= |p| {
      if s[..|p|] == p {
        ReplaceAllNotLonger(s[|p|..], p, r);
      } else {
        ReplaceAllNotLonger(s[1..], p, r);
      }
    }
  }

  // ---------------------------------------------------------------------------
  // Numeric conversions on exact reals
  // ---------------------------------------------------------------------------

  /** Truncation toward zero, as Java's `(int)` / `(long)` casts do. */
  function Truncate(x: real): (r: int)
    ensures x >= 0.0 ==> r as real <= x < r as real + 1.0
    ensures x < 0.0 ==> r as real - 1.0 < x <= r as real
  {
    if x >= 0.0 then x.Floor else -((-x).Floor)
  }

  /** `(int) x` for a double `x`: truncation, saturating at the `int` range. */
  function JavaIntCast(x: real): (r: int)
    ensures IsInt32(r)
    ensures IsInt32(Truncate(x)) ==> r == Truncate(x)
  {
    var t := Truncate(x);
    if t < IntMin then IntMin else if t > IntMax then IntMax else t
  }

  const LongMin: int := -0x8000_0000_0000_0000
  const LongMax: int := 0x7FFF_FFFF_FFFF_FFFF

  /** `(int) v` for a `long` v: the low 32 bits, read as two's complement. */
  function LongToInt(v: int): (r: int)
    ensures IsInt32(r)
    ensures (r - v) % 0x1_0000_0000 == 0
    ensures IsInt32(v) ==> r == v
  {
    var low := v % 0x1_0000_0000;
    if low > IntMax then low - 0x1_0000_0000 else low
  }

  /** `Math.round(x)` for a double `x`: the closest integer, ties rounded up,
      i.e. floor(x + 1/2), saturating at the `long` range. */
  function MathRound(x: real): (r: int)
    ensures LongMin <= r <= LongMax
    ensures LongMin < r < LongMax ==> r == Round(x)
  {
    var t := Round(x);
    if t < LongMin then LongMin else if t > LongMax then LongMax else t
  }

  /** The closest integer to `x`, ties rounded up, i.e. floor(x + 1/2). */
  function Round(x: real): (r: int)
    ensures r as real - 0.5 <= x < r as real + 0.5
  {
    (x + 0.5).Floor
  }
}
