/**
 * The two Kotlin string operations the parser relies on: `String.replace(old, new)`
 * (every non-overlapping occurrence, scanning left to right) and `String.split(" ")`
 * (every separator splits, empty parts are kept, trailing ones included).
 */
module Text {

  /** Kotlin's `s.replace(pat, rep)` for a non-empty `pat`. */
  function ReplaceAll(s: string, pat: string, rep: string): (r: string)
    requires pat != []
    ensures pat[0] !in s ==> r == s
    ensures |rep| <= |pat| ==> |r| <= |s|
    decreases |s|
  {
    if |s| < |pat| then s
    else if s[..|pat|] == pat then rep + ReplaceAll(s[|pat|..], pat, rep)
    else [s[0]] + ReplaceAll(s[1..], pat, rep)
  }

  /** A prefix that does not contain the first character of `pat` is copied unchanged. */
  lemma ReplaceAllSkips(x: string, y: string, pat: string, rep: string)
    requires pat != [] && pat[0] !in x
    ensures ReplaceAll(x + y, pat, rep) == x + ReplaceAll(y, pat, rep)
  {
    NoOccurrenceIn(x, y, pat);
    ReplaceAllSkipsTo(x, y, pat, rep);
  }

  /** An occurrence of `pat` starts at position i of s. */
  predicate OccursAt(s: string, pat: string, i: int)
  {
    0 <= i && i + |pat| <= |s| && s[i..i + |pat|] == pat
  }

  /** A prefix at none of whose positions an occurrence of `pat` starts is copied unchanged. */
  lemma {:induction false} ReplaceAllSkipsTo(x: string, y: string, pat: string, rep: string)
    requires pat != []
    requires forall i | 0 <= i < |x| :: !OccursAt(x + y, pat, i)
    ensures ReplaceAll(x + y, pat, rep) == x + ReplaceAll(y, pat, rep)
    decreases |x|
  {
    if x == [] {
      assert x + y == y;
    } else {
      var s := x + y;
      ReplaceAllStep(s, pat, rep);
      assert s[1..] == x[1..] + y;
      OccursAtShift(x, y, pat);
      ReplaceAllSkipsTo(x[1..], y, pat, rep);
      ConsAppend(x, ReplaceAll(y, pat, rep));
    }
  }

  lemma ConsAppend(a: string, b: string)
    requires a != []
    ensures [a[0]] + (a[1..] + b) == a + b
  {
    assert [a[0]] + a[1..] == a;
  }

  /** Where no occurrence starts, the first character is copied and scanning goes on after it. */
  lemma ReplaceAllStep(s: string, pat: string, rep: string)
    requires pat != [] && s != [] && !OccursAt(s, pat, 0)
    ensures ReplaceAll(s, pat, rep) == [s[0]] + ReplaceAll(s[1..], pat, rep)
  {
    if |s| < |pat| {
      assert [s[0]] + s[1..] == s;
    } else {
      assert s[..|pat|] == s[0..|pat|];
    }
  }

  /** Dropping the first character shifts every position by one. */
  lemma OccursAtShift(x: string, y: string, pat: string)
    requires x != [] && forall i | 0 <= i < |x| :: !OccursAt(x + y, pat, i)
    ensures forall i | 0 <= i < |x[1..]| :: !OccursAt(x[1..] + y, pat, i)
  {
    var s := x + y;
    assert s[1..] == x[1..] + y;
    forall i | 0 <= i < |x[1..]|
      ensures !OccursAt(x[1..] + y, pat, i)
    {
      assert !OccursAt(s, pat, i + 1);
      if i + |pat| <= |s[1..]| {
        assert s[1..][i..i + |pat|] == s[i + 1..i + 1 + |pat|];
      }
    }
  }

  /**
   * The first occurrence of `pat`, wherever it is, is replaced and scanning resumes after it:
   * if no occurrence starts inside x, the one right after x is the first.
   */
  lemma ReplaceAllFirstOccurrence(x: string, y: string, pat: string, rep: string)
    requires pat != []
    requires forall i | 0 <= i < |x| :: !OccursAt(x + pat + y, pat, i)
    ensures OccursAt(x + pat + y, pat, |x|)
    ensures ReplaceAll(x + pat + y, pat, rep) == x + rep + ReplaceAll(y, pat, rep)
  {
    assert x + pat + y == x + (pat + y);
    ReplaceAllSkipsTo(x, pat + y, pat, rep);
    assert (pat + y)[..|pat|] == pat;
    assert (pat + y)[|pat|..] == y;
    assert (x + pat + y)[|x|..|x| + |pat|] == pat;
  }

  /** No occurrence of `pat` starts inside a prefix free of its first character. */
  lemma NoOccurrenceIn(x: string, y: string, pat: string)
    requires pat != [] && pat[0] !in x
    ensures forall i | 0 <= i < |x| :: !OccursAt(x + y, pat, i)
  {
  }

  /** Kotlin's `s.split(sep)` for a one-character separator. */
  function Split(s: string, sep: char): (parts: seq<string>)
    ensures |parts| >= 1
    ensures forall k :: 0 <= k < |parts| ==> sep !in parts[k]
    ensures |parts| >= 2 <==> sep in s
    decreases |s|
  {
    if s == [] then [""]
    else
      var rest := Split(s[1..], sep);
      if s[0] == sep then [""] + rest
      else [[s[0]] + rest[0]] + rest[1..]
  }

  /** Kotlin's `parts.joinToString(sep)`: the inverse of Split. */
  function Join(parts: seq<string>, sep: char): string
    requires |parts| >= 1
  {
    if |parts| == 1 then parts[0] else parts[0] + [sep] + Join(parts[1..], sep)
  }

  /** Joining the parts of a split gives back the string. */
  lemma {:induction false} JoinSplit(s: string, sep: char)
    ensures Join(Split(s, sep), sep) == s
    decreases |s|
  {
    if s != [] {
      var rest := Split(s[1..], sep);
      JoinSplit(s[1..], sep);
      if s[0] == sep {
        assert ([""] + rest)[1..] == rest;
      } else {
        JoinPrepend(s[0], rest, sep);
      }
      assert [s[0]] + s[1..] == s;
    }
  }

  /** A character put in front of the first part ends up in front of the join. */
  lemma JoinPrepend(c: char, parts: seq<string>, sep: char)
    requires |parts| >= 1
    ensures Join([[c] + parts[0]] + parts[1..], sep) == [c] + Join(parts, sep)
  {
    var longer := [[c] + parts[0]] + parts[1..];
    assert longer[1..] == parts[1..];
    if |parts| > 1 {
      assert [c] + parts[0] + [sep] + Join(parts[1..], sep) == [c] + (parts[0] + [sep] + Join(parts[1..], sep));
    }
  }

  /** A string without the separator splits into itself. */
  lemma {:induction false} SplitWithoutSeparator(s: string, sep: char)
    requires sep !in s
    ensures Split(s, sep) == [s]
    decreases |s|
  {
    if s != [] {
      SplitWithoutSeparator(s[1..], sep);
      assert [s[0]] + s[1..] == s;
    }
  }

  /** A first part free of the separator is split off whole. */
  lemma {:induction false} SplitFirstPart(d: string, m: string, sep: char)
    requires sep !in d
    ensures Split(d + [sep] + m, sep) == [d] + Split(m, sep)
    decreases |d|
  {
    var s := d + [sep] + m;
    if d == [] {
      assert s == [sep] + m && s[1..] == m;
    } else {
      assert s[0] == d[0] && s[1..] == d[1..] + [sep] + m;
      SplitFirstPart(d[1..], m, sep);
      var rest := Split(s[1..], sep);
      assert rest == [d[1..]] + Split(m, sep);
      assert [d[0]] + d[1..] == d;
      assert ([d[1..]] + Split(m, sep))[1..] == Split(m, sep);
    }
  }

  /** Splitting a join of separator-free parts gives back the parts. */
  lemma {:induction false} SplitJoin(parts: seq<string>, sep: char)
    requires |parts| >= 1
    requires forall k :: 0 <= k < |parts| ==> sep !in parts[k]
    ensures Split(Join(parts, sep), sep) == parts
    decreases |parts|
  {
    if |parts| == 1 {
      SplitWithoutSeparator(parts[0], sep);
    } else {
      SplitJoin(parts[1..], sep);
      SplitFirstPart(parts[0], Join(parts[1..], sep), sep);
      assert [parts[0]] + parts[1..] == parts;
    }
  }
}
