/** The string primitives the deprecated-API gate relies on, in the exact
    form Go gives them: the two white-space classes (the regular-expression
    `\s` and unicode.IsSpace), strings.TrimSpace, strings.ToUpper,
    strings.Join and strings.Split, and the rewrite of every run of
    separators to one comma. */
module Text {

  // ------------------------------------------------------------------
  // Character classes
  // ------------------------------------------------------------------

  /** `\s` in Go's regular-expression syntax: tab, newline, form feed,
      carriage return and space. The vertical tab is NOT part of it, so
      `\S` accepts it. */
  predicate IsRegexSpace(c: char) {
    c == ' ' || c == '\t' || c == '\n' || c == '\U{000C}' || c == '\r'
  }

  /** unicode.IsSpace, the class strings.TrimSpace removes: ASCII white
      space including the vertical tab, NEL, NO-BREAK SPACE and the other
      characters with the Unicode White_Space property. */
  predicate IsUnicodeSpace(c: char) {
    || c == ' ' || c == '\t' || c == '\n' || c == '\U{000B}' || c == '\U{000C}' || c == '\r'
    || c == '\U{0085}' || c == '\U{00A0}' || c == '\U{1680}'
    || ('\U{2000}' <= c <= '\U{200A}')
    || c == '\U{2028}' || c == '\U{2029}' || c == '\U{202F}' || c == '\U{205F}' || c == '\U{3000}'
  }

  predicate IsNotRegexSpace(c: char) { !IsRegexSpace(c) }

  /** The class `[\s,]` that separates method names inside a bracket. */
  predicate IsMethodSeparator(c: char) { IsRegexSpace(c) || c == ',' }

  predicate IsLowerAscii(c: char) { 'a' <= c <= 'z' }

  /** Every character of `s` belongs to the class `p`. */
  predicate All(s: string, p: char -> bool) {
    forall i :: 0 <= i < |s| ==> p(s[i])
  }

  /** Every character of `x` occurs somewhere in `s`. */
  ghost predicate CharsWithin(x: string, s: string) {
    forall ch :: ch in x ==> ch in s
  }

  // ------------------------------------------------------------------
  // Maximal runs
  // ------------------------------------------------------------------

  /** The end of the longest run of `p`-characters that starts at `i`. */
  function SpanFrom(s: string, i: nat, p: char -> bool): (e: nat)
    requires i <= |s|
    ensures i <= e <= |s|
    ensures forall k :: i <= k < e ==> p(s[k])
    ensures e == |s| || !p(s[e])
    decreases |s| - i
  {
    if i == |s| || !p(s[i]) then i else SpanFrom(s, i + 1, p)
  }

  /** The start of the longest run of `p`-characters that ends at `j`
      without going below `lo`. */
  function SpanBackTo(s: string, lo: nat, j: nat, p: char -> bool): (b: nat)
    requires lo <= j <= |s|
    ensures lo <= b <= j
    ensures forall k :: b <= k < j ==> p(s[k])
    ensures b == lo || !p(s[b - 1])
    decreases j
  {
    if j == lo || !p(s[j - 1]) then j else SpanBackTo(s, lo, j - 1, p)
  }

  /** The run is determined by its two defining facts. */
  lemma SpanFromIs(s: string, i: nat, e: nat, p: char -> bool)
    requires i <= e <= |s|
    requires forall k :: i <= k < e ==> p(s[k])
    requires e == |s| || !p(s[e])
    ensures SpanFrom(s, i, p) == e
  {
    var r := SpanFrom(s, i, p);
    assert r < |s| ==> !p(s[r]);
    assert e < |s| ==> !p(s[e]);
  }

  /** A run of `p`-characters placed right after `x` and stopped by the
      first character of `b` (or by the end) is exactly `a`. */
  lemma SpanPrefix(x: string, a: string, b: string, p: char -> bool)
    requires All(a, p) && (b == [] || !p(b[0]))
    ensures SpanFrom(x + (a + b), |x|, p) == |x| + |a|
    ensures (x + (a + b))[|x|..|x| + |a|] == a && (x + (a + b))[|x| + |a|..] == b
    ensures x == [] ==> SpanFrom(a + b, 0, p) == |a| && (a + b)[..|a|] == a && (a + b)[|a|..] == b
  {
    var s := x + (a + b);
    assert forall m :: |x| <= m < |x| + |a| ==> s[m] == a[m - |x|];
    assert |x| + |a| < |s| ==> s[|x| + |a|] == b[0];
    SpanFromIs(s, |x|, |x| + |a|, p);
    if x == [] {
      assert s == a + b;
    }
  }

  lemma SpanBackToIs(s: string, lo: nat, j: nat, b: nat, p: char -> bool)
    requires lo <= b <= j <= |s|
    requires forall k :: b <= k < j ==> p(s[k])
    requires b == lo || !p(s[b - 1])
    ensures SpanBackTo(s, lo, j, p) == b
  {
    var r := SpanBackTo(s, lo, j, p);
    assert r > lo ==> !p(s[r - 1]);
    assert b > lo ==> !p(s[b - 1]);
  }

  // ------------------------------------------------------------------
  // strings.TrimSpace
  // ------------------------------------------------------------------

  /** `t` sits at offset `i` of `s` with only white space around it. */
  ghost predicate TrimmedAt(s: string, t: string, i: nat) {
    && i + |t| <= |s|
    && s[i..i + |t|] == t
    && (forall k :: 0 <= k < i ==> IsUnicodeSpace(s[k]))
    && (forall k :: i + |t| <= k < |s| ==> IsUnicodeSpace(s[k]))
  }

  /** strings.TrimSpace: `s` without its leading and trailing white space. */
  function TrimSpace(s: string): (t: string)
    ensures t == [] || (!IsUnicodeSpace(t[0]) && !IsUnicodeSpace(t[|t| - 1]))
    ensures exists i: nat :: TrimmedAt(s, t, i)
  {
    var i := SpanFrom(s, 0, IsUnicodeSpace);
    var j := SpanBackTo(s, i, |s|, IsUnicodeSpace);
    assert TrimmedAt(s, s[i..j], i);
    s[i..j]
  }

  /** Trimming recovers exactly the core placed between two runs of white
      space, as long as the core neither starts nor ends with white space. */
  lemma TrimSpaceExact(a: string, t: string, b: string)
    requires All(a, IsUnicodeSpace) && All(b, IsUnicodeSpace)
    requires t == [] || (!IsUnicodeSpace(t[0]) && !IsUnicodeSpace(t[|t| - 1]))
    ensures TrimSpace(a + t + b) == t
  {
    var s := a + t + b;
    if t == [] {
      assert forall k :: 0 <= k < |s| ==> IsUnicodeSpace(s[k]) by {
        forall k | 0 <= k < |s| ensures IsUnicodeSpace(s[k]) {
          if k < |a| { assert s[k] == a[k]; } else { assert s[k] == b[k - |a|]; }
        }
      }
      SpanFromIs(s, 0, |s|, IsUnicodeSpace);
      SpanBackToIs(s, |s|, |s|, |s|, IsUnicodeSpace);
      assert s[|s|..|s|] == [];
    } else {
      assert forall k :: 0 <= k < |a| ==> IsUnicodeSpace(s[k]) by {
        forall k | 0 <= k < |a| ensures IsUnicodeSpace(s[k]) { assert s[k] == a[k]; }
      }
      assert s[|a|] == t[0];
      SpanFromIs(s, 0, |a|, IsUnicodeSpace);
      var j := |a| + |t|;
      assert forall k :: j <= k < |s| ==> IsUnicodeSpace(s[k]) by {
        forall k | j <= k < |s| ensures IsUnicodeSpace(s[k]) { assert s[k] == b[k - j]; }
      }
      assert s[j - 1] == t[|t| - 1];
      SpanBackToIs(s, |a|, |s|, j, IsUnicodeSpace);
      assert s[|a|..j] == t;
    }
  }

  /** TrimSpace is idempotent, so trimming twice (as the Go code does) is
      the same as trimming once. */
  lemma TrimSpaceIdempotent(s: string)
    ensures TrimSpace(TrimSpace(s)) == TrimSpace(s)
  {
    var t := TrimSpace(s);
    TrimSpaceExact([], t, []);
    assert [] + t + [] == t;
  }

  // ------------------------------------------------------------------
  // strings.ToUpper (ASCII letters)
  // ------------------------------------------------------------------

  function UpperChar(c: char): char {
    if IsLowerAscii(c) then (c as int - 32) as char else c
  }

  /** strings.ToUpper, restricted to the ASCII letters: each lower-case
      letter becomes its capital, every other character stays. */
  function Upper(s: string): (r: string)
    ensures |r| == |s|
    ensures forall i :: 0 <= i < |s| ==> !IsLowerAscii(r[i])
    ensures forall i :: 0 <= i < |s| ==> (r[i] == s[i] <==> !IsLowerAscii(s[i]))
    ensures forall i :: 0 <= i < |s| && IsLowerAscii(s[i]) ==> 'A' <= r[i] <= 'Z' && r[i] as int + 32 == s[i] as int
  {
    seq(|s|, i requires 0 <= i < |s| => UpperChar(s[i]))
  }

  lemma UpperAppend(a: string, b: string)
    ensures Upper(a + b) == Upper(a) + Upper(b)
  {
    assert forall i :: 0 <= i < |a| + |b| ==> Upper(a + b)[i] == (Upper(a) + Upper(b))[i];
  }

  /** A string without lower-case letters is left unchanged. */
  lemma UpperNoLower(s: string)
    requires forall i :: 0 <= i < |s| ==> !IsLowerAscii(s[i])
    ensures Upper(s) == s
  {
  }

  // ------------------------------------------------------------------
  // strings.Join and strings.Split
  // ------------------------------------------------------------------

  /** strings.Join: the elements with `sep` between neighbours. */
  function Join(xs: seq<string>, sep: string): string
    decreases |xs|
  {
    if |xs| == 0 then "" else if |xs| == 1 then xs[0] else xs[0] + sep + Join(xs[1..], sep)
  }

  /** A character found in neither the elements nor the separator is not
      in their join. */
  lemma {:induction false} JoinAvoids(xs: seq<string>, sep: string, c: char)
    requires forall i :: 0 <= i < |xs| ==> c !in xs[i]
    requires c !in sep
    ensures c !in Join(xs, sep)
    decreases |xs|
  {
    if |xs| > 1 {
      JoinAvoids(xs[1..], sep, c);
    }
  }

  /** The class of every character except `c`. */
  function Other(c: char): char -> bool {
    x => x != c
  }

  /** strings.Split with a one-character separator: the pieces between
      consecutive occurrences of `c`; splitting "" gives [""]. */
  function SplitOn(s: string, c: char): (parts: seq<string>)
    ensures |parts| >= 1
    ensures forall i :: 0 <= i < |parts| ==> c !in parts[i] && CharsWithin(parts[i], s)
    ensures parts[0] == [] <==> (s == [] || s[0] == c)
    ensures parts[|parts| - 1] == [] <==> (s == [] || s[|s| - 1] == c)
    decreases |s|
  {
    var e := SpanFrom(s, 0, Other(c));
    if e == |s| then
      assert forall k :: 0 <= k < |s| ==> s[k] != c;
      [s]
    else
      var rest := SplitOn(s[e + 1..], c);
      assert forall k :: 0 <= k < e ==> s[..e][k] != c;
      assert forall i :: 0 <= i < |rest| ==> CharsWithin(rest[i], s) by {
        forall i | 0 <= i < |rest| ensures CharsWithin(rest[i], s) {
          assert CharsWithin(rest[i], s[e + 1..]);
          forall ch | ch in s[e + 1..] ensures ch in s {
            var k :| 0 <= k < |s[e + 1..]| && s[e + 1..][k] == ch;
            assert s[e + 1 + k] == ch;
          }
        }
      }
      [s[..e]] + rest
  }

  /** Joining the pieces of a split with the same separator gives back the
      original string. */
  lemma {:induction false} JoinSplit(s: string, c: char)
    ensures Join(SplitOn(s, c), [c]) == s
    decreases |s|
  {
    var e := SpanFrom(s, 0, Other(c));
    if e < |s| {
      var rest := SplitOn(s[e + 1..], c);
      JoinSplit(s[e + 1..], c);
      var parts := SplitOn(s, c);
      assert parts == [s[..e]] + rest;
      assert parts[1..] == rest;
      assert s == s[..e] + [c] + s[e + 1..];
    }
  }

  /** The first element of a join, followed by the separator and the join
      of the rest when there is more than one element. */
  lemma JoinHead(xs: seq<string>, c: char)
    requires |xs| >= 1 && c !in xs[0]
    ensures SpanFrom(Join(xs, [c]), 0, Other(c)) == |xs[0]|
    ensures Join(xs, [c])[..|xs[0]|] == xs[0]
    ensures |xs| > 1 ==> Join(xs, [c])[|xs[0]| + 1..] == Join(xs[1..], [c])
    ensures |xs| == 1 ==> Join(xs, [c]) == xs[0]
  {
    var s := Join(xs, [c]);
    var rest := if |xs| == 1 then [] else [c] + Join(xs[1..], [c]);
    assert s == xs[0] + rest;
    assert forall k :: 0 <= k < |xs[0]| ==> Other(c)(s[k]) by {
      forall k | 0 <= k < |xs[0]| ensures Other(c)(s[k]) {
        assert s[k] == xs[0][k];
        assert xs[0][k] in xs[0];
      }
    }
    assert |xs[0]| < |s| ==> s[|xs[0]|] == c;
    SpanFromIs(s, 0, |xs[0]|, Other(c));
  }

  /** Splitting a join recovers the elements when none of them contains
      the separator. */
  lemma {:induction false} SplitJoin(xs: seq<string>, c: char)
    requires |xs| >= 1
    requires forall i :: 0 <= i < |xs| ==> c !in xs[i]
    ensures SplitOn(Join(xs, [c]), c) == xs
    decreases |xs|
  {
    JoinHead(xs, c);
    if |xs| > 1 {
      SplitJoin(xs[1..], c);
      assert xs == [xs[0]] + xs[1..];
    }
  }

  /** No two occurrences of `c` stand next to each other. */
  predicate NoAdjacent(s: string, c: char) {
    forall i :: 0 < i < |s| ==> !(s[i - 1] == c && s[i] == c)
  }

  /** Without adjacent separators, only the first and the last piece of a
      split can be empty. */
  lemma {:induction false} SplitInteriorNonEmpty(s: string, c: char)
    requires NoAdjacent(s, c)
    ensures forall i :: 0 < i < |SplitOn(s, c)| - 1 ==> SplitOn(s, c)[i] != []
    decreases |s|
  {
    var e := SpanFrom(s, 0, Other(c));
    if e < |s| {
      var t := s[e + 1..];
      var rest := SplitOn(t, c);
      assert NoAdjacent(t, c) by {
        forall i | 0 < i < |t| ensures !(t[i - 1] == c && t[i] == c) {
          assert t[i - 1] == s[e + i] && t[i] == s[e + 1 + i];
        }
      }
      SplitInteriorNonEmpty(t, c);
      var parts := SplitOn(s, c);
      assert parts == [s[..e]] + rest;
      forall i | 0 < i < |parts| - 1 ensures parts[i] != [] {
        assert parts[i] == rest[i - 1];
        if i == 1 {
          assert t == [] ==> |rest| == 1;
          assert t[0] == s[e + 1];
          assert s[e] == c;
        }
      }
    }
  }

  // ------------------------------------------------------------------
  // Collapsing runs of separators: regexp `[\s,]+` replaced by ","
  // ------------------------------------------------------------------

  lemma InSuffix(s: string, e: nat, ch: char)
    requires e <= |s| && ch in s[e..]
    ensures ch in s
  {
    var k :| 0 <= k < |s[e..]| && s[e..][k] == ch;
    assert s[e + k] == ch;
  }

  /** `s` with every maximal run of white space and commas replaced by a
      single comma. */
  function Collapse(s: string): (r: string)
    ensures forall i :: 0 <= i < |r| ==> !IsRegexSpace(r[i])
    ensures forall ch :: ch in r ==> ch == ',' || ch in s
    ensures |r| == 0 <==> |s| == 0
    ensures |r| > 0 ==> (r[0] == ',' <==> IsMethodSeparator(s[0]))
    ensures |r| > 0 ==> (r[|r| - 1] == ',' <==> IsMethodSeparator(s[|s| - 1]))
    ensures NoAdjacent(r, ',')
    decreases |s|
  {
    if s == [] then []
    else if IsMethodSeparator(s[0]) then
      var e := SpanFrom(s, 0, IsMethodSeparator);
      var tail := Collapse(s[e..]);
      assert forall ch :: ch in tail ==> ch == ',' || ch in s by {
        forall ch | ch in tail && ch != ',' ensures ch in s {
          InSuffix(s, e, ch);
        }
      }
      assert e < |s| ==> s[|s| - 1] == s[e..][|s[e..]| - 1];
      "," + tail
    else
      var tail := Collapse(s[1..]);
      assert forall ch :: ch in tail ==> ch == ',' || ch in s by {
        forall ch | ch in tail && ch != ',' ensures ch in s {
          InSuffix(s, 1, ch);
        }
      }
      [s[0]] + tail
  }

  /** A run of non-separators passes through unchanged. */
  lemma {:induction false} CollapseToken(t: string, rest: string)
    requires forall i :: 0 <= i < |t| ==> !IsMethodSeparator(t[i])
    ensures Collapse(t + rest) == t + Collapse(rest)
    decreases |t|
  {
    if t != [] {
      var s := t + rest;
      assert s[0] == t[0] && !IsMethodSeparator(s[0]);
      assert s[1..] == t[1..] + rest;
      assert Collapse(s) == [s[0]] + Collapse(s[1..]);
      CollapseToken(t[1..], rest);
      assert [t[0]] + (t[1..] + Collapse(rest)) == t + Collapse(rest);
    } else {
      assert t + rest == rest;
    }
  }

  /** A non-empty run of separators followed by a non-separator becomes
      one comma. */
  lemma CollapseRun(run: string, rest: string)
    requires |run| > 0 && All(run, IsMethodSeparator)
    requires rest == [] || !IsMethodSeparator(rest[0])
    ensures Collapse(run + rest) == "," + Collapse(rest)
  {
    var s := run + rest;
    assert forall k :: 0 <= k < |run| ==> IsMethodSeparator(s[k]) by {
      forall k | 0 <= k < |run| ensures IsMethodSeparator(s[k]) { assert s[k] == run[k]; }
    }
    if rest != [] { assert s[|run|] == rest[0]; }
    SpanFromIs(s, 0, |run|, IsMethodSeparator);
    assert s[|run|..] == rest;
  }

  /** The characters of `s` other than white space and commas, in order. */
  function NonSeparators(s: string): string
    decreases |s|
  {
    if s == [] then []
    else (if IsMethodSeparator(s[0]) then [] else [s[0]]) + NonSeparators(s[1..])
  }

  /** A leading run of separators contributes nothing. */
  lemma {:induction false} NonSeparatorsSkip(s: string, e: nat)
    requires e <= |s| && forall k :: 0 <= k < e ==> IsMethodSeparator(s[k])
    ensures NonSeparators(s) == NonSeparators(s[e..])
    decreases e
  {
    if e > 0 {
      assert s[1..][e - 1..] == s[e..];
      NonSeparatorsSkip(s[1..], e - 1);
    }
  }

  /** Collapsing keeps every other character, in order: only the
      separator runs change. */
  lemma {:induction false} CollapseKeepsOthers(s: string)
    ensures NonSeparators(Collapse(s)) == NonSeparators(s)
    decreases |s|
  {
    if s != [] {
      if IsMethodSeparator(s[0]) {
        var e := SpanFrom(s, 0, IsMethodSeparator);
        var tail := Collapse(s[e..]);
        assert Collapse(s) == "," + tail;
        assert ("," + tail)[1..] == tail;
        CollapseKeepsOthers(s[e..]);
        NonSeparatorsSkip(s, e);
      } else {
        var tail := Collapse(s[1..]);
        assert Collapse(s) == [s[0]] + tail;
        assert ([s[0]] + tail)[1..] == tail;
        CollapseKeepsOthers(s[1..]);
      }
    }
  }
}
