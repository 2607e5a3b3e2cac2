/** The JavaScript string operations the page logic relies on:
    `split`, `join`, `trim`, `startsWith`, plus ASCII lower-casing and
    character counting used to state properties. */
module Strings {

  /** The summed length of `parts`. */
  function TotalLength(parts: seq<string>): nat
  {
    if |parts| == 0 then 0 else |parts[0]| + TotalLength(parts[1..])
  }

  /** `parts.join(sep)`: the parts in order with one separator between each
      two, so the result is as long as the parts plus `|parts| - 1`
      separators, and it opens with the first part. */
  function Join(parts: seq<string>, sep: string): (r: string)
    ensures |parts| == 0 ==> r == ""
    ensures |parts| >= 1 ==> |r| == TotalLength(parts) + (|parts| - 1) * |sep|
    ensures |parts| >= 1 ==> r[..|parts[0]|] == parts[0]
    decreases |parts|
  {
    if |parts| == 0 then ""
    else if |parts| == 1 then parts[0]
    else parts[0] + sep + Join(parts[1..], sep)
  }

  /** `s.split(sep)` for a one-character separator: every separator ends a
      segment, so the result is never empty ("" splits to [""]). */
  function Split(s: string, sep: char): (parts: seq<string>)
    ensures |parts| >= 1
    ensures forall i :: 0 <= i < |parts| ==> sep !in parts[i]
    ensures Join(parts, [sep]) == s
    decreases |s|
  {
    if |s| == 0 then [""]
    else
      var rest := Split(s[1..], sep);
      if s[0] == sep then
        var parts := [""] + rest;
        assert parts[1..] == rest;
        assert s == [sep] + s[1..];
        parts
      else
        var parts := [[s[0]] + rest[0]] + rest[1..];
        assert parts[1..] == rest[1..];
        assert s == [s[0]] + s[1..];
        parts
  }

  /** `s.startsWith(prefix)`. */
  predicate StartsWith(s: string, prefix: string)
  {
    |prefix| <= |s| && s[..|prefix|] == prefix
  }

  /** `s.endsWith(suffix)`. */
  predicate EndsWith(s: string, suffix: string)
  {
    |suffix| <= |s| && s[|s| - |suffix|..] == suffix
  }

  /** `pre + mid + post` starts with `pre` and ends with `mid + post`. */
  lemma Enclosed(pre: string, mid: string, post: string)
    ensures StartsWith(pre + mid + post, pre)
    ensures EndsWith(pre + mid + post, mid + post)
  {
  }

  /** ECMAScript WhiteSpace and LineTerminator code points: the characters
      `String.prototype.trim` removes. */
  predicate IsSpace(c: char)
  {
    || c == '\t' || c == '\n' || c == '\U{000B}' || c == '\U{000C}' || c == '\r'
    || c == ' ' || c == '\U{00A0}' || c == '\U{1680}'
    || ('\U{2000}' <= c <= '\U{200A}')
    || c == '\U{2028}' || c == '\U{2029}' || c == '\U{202F}' || c == '\U{205F}'
    || c == '\U{3000}' || c == '\U{FEFF}'
  }

  predicate AllSpace(s: string)
  {
    forall m :: 0 <= m < |s| ==> IsSpace(s[m])
  }

  /** Index of the first non-space character at or after `i`. */
  function SkipLeading(s: string, i: nat): (k: nat)
    requires i <= |s|
    ensures i <= k <= |s|
    ensures forall m :: i <= m < k ==> IsSpace(s[m])
    ensures k < |s| ==> !IsSpace(s[k])
    decreases |s| - i
  {
    if i < |s| && IsSpace(s[i]) then SkipLeading(s, i + 1) else i
  }

  /** Index just after the last non-space character in `s[lo..j]`, or `lo`. */
  function SkipTrailing(s: string, lo: nat, j: nat): (k: nat)
    requires lo <= j <= |s|
    ensures lo <= k <= j
    ensures forall m :: k <= m < j ==> IsSpace(s[m])
    ensures k > lo ==> !IsSpace(s[k - 1])
    decreases j
  {
    if j > lo && IsSpace(s[j - 1]) then SkipTrailing(s, lo, j - 1) else j
  }

  /** `s.trim()`: the part of `s` between its leading and trailing white space. */
  function Trim(s: string): (t: string)
    ensures t == "" <==> AllSpace(s)
    ensures t != "" ==> !IsSpace(t[0]) && !IsSpace(t[|t| - 1])
    ensures exists i :: 0 <= i <= |s| - |t| && s[i..i + |t|] == t
                        && AllSpace(s[..i]) && AllSpace(s[i + |t|..])
  {
    var i := SkipLeading(s, 0);
    var j := SkipTrailing(s, i, |s|);
    assert AllSpace(s[..i]);
    assert AllSpace(s[j..]);
    assert i < j ==> !IsSpace(s[i]);
    s[i..j]
  }

  lemma TrimIdempotent(s: string)
    ensures Trim(Trim(s)) == Trim(s)
  {
  }

  /** Number of occurrences of `c` in `s`. */
  function CountChar(s: string, c: char): (n: nat)
    ensures n <= |s|
    ensures n == 0 <==> c !in s
    decreases |s|
  {
    if |s| == 0 then 0
    else
      assert s == [s[0]] + s[1..];
      (if s[0] == c then 1 else 0) + CountChar(s[1..], c)
  }

  lemma {:induction false} CountCharConcat(a: string, b: string, c: char)
    ensures CountChar(a + b, c) == CountChar(a, c) + CountChar(b, c)
    decreases |a|
  {
    if |a| == 0 {
      assert a + b == b;
    } else {
      assert (a + b)[0] == a[0];
      assert (a + b)[1..] == a[1..] + b;
      CountCharConcat(a[1..], b, c);
    }
  }

  function LowerChar(c: char): char
  {
    if 'A' <= c <= 'Z' then (c as int + 32) as char else c
  }

  /** ASCII lower-casing, as HTML uses for case-insensitive attribute values. */
  function LowerAscii(s: string): string
  {
    seq(|s|, i requires 0 <= i < |s| => LowerChar(s[i]))
  }

  // ---------------------------------------------------------------------
  // Split and Join are inverse to each other.

  /** A separator-free string is one segment. */
  lemma {:induction false} SplitWithoutSeparator(a: string, sep: char)
    requires sep !in a
    ensures Split(a, sep) == [a]
    decreases |a|
  {
    if |a| > 0 {
      assert sep !in a[1..];
      SplitWithoutSeparator(a[1..], sep);
      assert [a[0]] + a[1..] == a;
    }
  }

  /** Splitting `a + sep + rest` peels off `a` as the first segment. */
  lemma {:induction false} SplitFirstSegment(a: string, sep: char, rest: string)
    requires sep !in a
    ensures Split(a + [sep] + rest, sep) == [a] + Split(rest, sep)
    decreases |a|
  {
    var s := a + [sep] + rest;
    if |a| == 0 {
      assert s[0] == sep && s[1..] == rest;
    } else {
      assert s[0] == a[0];
      assert s[1..] == a[1..] + [sep] + rest;
      assert sep !in a[1..];
      SplitFirstSegment(a[1..], sep, rest);
      assert [a[0]] + a[1..] == a;
    }
  }

  /** Round trip: splitting a join of separator-free segments gives them back. */
  lemma {:induction false} SplitJoin(parts: seq<string>, sep: char)
    requires |parts| >= 1
    requires forall i :: 0 <= i < |parts| ==> sep !in parts[i]
    ensures Split(Join(parts, [sep]), sep) == parts
    decreases |parts|
  {
    if |parts| == 1 {
      SplitWithoutSeparator(parts[0], sep);
    } else {
      SplitJoin(parts[1..], sep);
      SplitFirstSegment(parts[0], sep, Join(parts[1..], [sep]));
      assert [parts[0]] + parts[1..] == parts;
    }
  }

  lemma {:induction false} JoinAppend(xs: seq<string>, ys: seq<string>, sep: string)
    requires |xs| >= 1 && |ys| >= 1
    ensures Join(xs + ys, sep) == Join(xs, sep) + sep + Join(ys, sep)
    decreases |xs|
  {
    if |xs| == 1 {
      assert (xs + ys)[1..] == ys;
    } else {
      assert (xs + ys)[1..] == xs[1..] + ys;
      JoinAppend(xs[1..], ys, sep);
    }
  }

  /** Every segment of `parts` is free of `sep`. */
  predicate SeparatorFree(parts: seq<string>, sep: char)
  {
    forall i :: 0 <= i < |parts| ==> sep !in parts[i]
  }

  lemma SeparatorFreeAppend(xs: seq<string>, ys: seq<string>, sep: char)
    requires SeparatorFree(xs, sep) && SeparatorFree(ys, sep)
    ensures SeparatorFree(xs + ys, sep)
  {
  }

  /** Splitting distributes over a separator: `(p + sep + q).split(sep)` is
      `p.split(sep)` followed by `q.split(sep)`. */
  lemma SplitConcat(p: string, q: string, sep: char)
    ensures Split(p + [sep] + q, sep) == Split(p, sep) + Split(q, sep)
  {
    var P := Split(p, sep);
    var Q := Split(q, sep);
    assert SeparatorFree(P, sep) && SeparatorFree(Q, sep);
    SeparatorFreeAppend(P, Q, sep);
    JoinAppend(P, Q, [sep]);
    assert Join(P + Q, [sep]) == p + [sep] + q;
    SplitJoin(P + Q, sep);
  }

  // ---------------------------------------------------------------------
  // Layout of a joined string.

  /** Position at which `parts[i]` starts inside `Join(parts, sep)`. */
  function Offset(parts: seq<string>, sep: string, i: nat): nat
    requires i < |parts|
  {
    if i == 0 then 0 else |parts[0]| + |sep| + Offset(parts[1..], sep, i - 1)
  }

  /** A slice that lies inside the right operand of a concatenation. */
  lemma SliceOfRight(a: string, b: string, x: nat, y: nat)
    requires x <= y <= |b|
    ensures (a + b)[|a| + x..|a| + y] == b[x..y]
  {
  }

  /** `Join(parts, sep)` is `parts[i]` followed by the rest of the join. */
  lemma {:induction false} JoinSuffix(parts: seq<string>, sep: string, i: nat)
    requires i < |parts|
    ensures Offset(parts, sep, i) <= |Join(parts, sep)|
    ensures Join(parts, sep)[Offset(parts, sep, i)..] == Join(parts[i..], sep)
    decreases i
  {
    if i > 0 {
      var tail := parts[1..];
      JoinSuffix(tail, sep, i - 1);
      assert tail[i - 1..] == parts[i..];
      var d := |parts[0]| + |sep|;
      assert Join(parts, sep) == (parts[0] + sep) + Join(tail, sep);
      assert Join(parts, sep)[d..] == Join(tail, sep);
    }
  }

  /** `parts[i]` sits at `Offset(parts, sep, i)` in `joined` and is followed
      by exactly one `sep`, unless it is the last part, which ends `joined`. */
  predicate PlacedAt(joined: string, parts: seq<string>, sep: string, i: nat)
    requires i < |parts|
  {
    var at := Offset(parts, sep, i);
    && at + |parts[i]| <= |joined|
    && joined[at..at + |parts[i]|] == parts[i]
    && (i + 1 < |parts| ==>
          && at + |parts[i]| + |sep| <= |joined|
          && joined[at + |parts[i]|..at + |parts[i]| + |sep|] == sep)
    && (i + 1 == |parts| ==> at + |parts[i]| == |joined|)
  }

  /** `Join(parts, sep)` lays the parts out in order, each at its offset. */
  lemma JoinLayout(parts: seq<string>, sep: string, i: nat)
    requires i < |parts|
    ensures PlacedAt(Join(parts, sep), parts, sep, i)
  {
    JoinSuffix(parts, sep, i);
    var J := Join(parts, sep);
    var o := Offset(parts, sep, i);
    var rest := Join(parts[i..], sep);
    assert J == J[..o] + rest;
    if i + 1 < |parts| {
      assert rest == parts[i] + sep + Join(parts[i + 1..], sep) by {
        assert parts[i..][1..] == parts[i + 1..];
      }
      SliceOfRight(J[..o], rest, 0, |parts[i]|);
      SliceOfRight(J[..o], rest, |parts[i]|, |parts[i]| + |sep|);
    } else {
      assert rest == parts[i];
      SliceOfRight(J[..o], rest, 0, |parts[i]|);
    }
  }

  /** Every part of `Join(parts, sep)` sits at its offset. */
  lemma JoinLayoutAll(parts: seq<string>, sep: string)
    ensures forall i :: 0 <= i < |parts| ==> PlacedAt(Join(parts, sep), parts, sep, i)
  {
    forall i | 0 <= i < |parts| ensures PlacedAt(Join(parts, sep), parts, sep, i) {
      JoinLayout(parts, sep, i);
    }
  }

  /** With separator-free parts, the separator character occurs exactly
      `|parts| - 1` times in the joined string. */
  lemma {:induction false} JoinSeparatorCount(parts: seq<string>, sep: string, c: char)
    requires |parts| >= 1
    requires CountChar(sep, c) == 1
    requires forall i :: 0 <= i < |parts| ==> c !in parts[i]
    ensures CountChar(Join(parts, sep), c) == |parts| - 1
    decreases |parts|
  {
    if |parts| > 1 {
      JoinSeparatorCount(parts[1..], sep, c);
      CountCharConcat(parts[0], sep, c);
      CountCharConcat(parts[0] + sep, Join(parts[1..], sep), c);
    }
  }
}
