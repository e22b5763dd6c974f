/**
 Replacing the version placeholder in a promoted values file
 (promotion-service/pkg/utils/githandler.go:144 and 265-278).
 */
module Placeholder {
  import opened Substrings

  const IMAGE_VERSION := "{{ keptn/ImageVersion }}"

  /** `bytes.Replace(s, p, v, -1)`: from the left, occurrences do not overlap. */
  function Replace(s: string, p: string, v: string): string
    requires p != ""
    decreases |s|
  {
    var i := IndexFrom(s, p, 0);
    if i == -1 then s else s[..i] + v + Replace(s[i + |p|..], p, v)
  }

  lemma ReplaceWithoutOccurrence(s: string, p: string, v: string)
    requires p != "" && !Occurs(s, p)
    ensures Replace(s, p, v) == s
  {}

  // ---------- When the replacement leaves no placeholder behind ----------

  /** `v` ends with the first `k` characters of `p`. */
  predicate Ends(v: string, p: string, k: nat) {
    k <= |v| && k <= |p| && forall j :: 0 <= j < k ==> v[|v| - k + j] == p[j]
  }

  /** `v` begins with the last `k` characters of `p`. */
  predicate Begins(v: string, p: string, k: nat) {
    k <= |v| && k <= |p| && forall j :: 0 <= j < k ==> v[j] == p[|p| - k + j]
  }

  /**
   The replacement text can meet its surroundings in a new occurrence of `p`: it lies inside `p`, contains `p`,
   ends as `p` begins or begins as `p` ends.
   */
  ghost predicate Bridges(v: string, p: string) {
    || Occurs(p, v)
    || Occurs(v, p)
    || (exists k :: 0 < k < |p| && Ends(v, p, k))
    || (exists k :: 0 < k < |p| && Begins(v, p, k))
  }

  /** No proper prefix of `p` is also a suffix of it, so two occurrences never overlap. */
  ghost predicate Unbordered(p: string) {
    forall k :: 0 < k < |p| ==> !Ends(p, p, k)
  }

  /** Where an occurrence in `l + v + r` can lie. */
  lemma OccurrenceCases(l: string, v: string, r: string, p: string, i: int)
    requires p != "" && OccursAt(l + v + r, p, i)
    ensures Occurs(l, p) || Bridges(v, p) || OccursAt(r, p, i - |l| - |v|)
  {
    var a, b, j := |l|, |l| + |v|, i + |p|;
    if j <= a {
      assert OccursAt(l, p, i);
    } else if i <= a && b <= j {
      assert OccursAt(p, v, a - i);
    } else if a <= i && j <= b {
      assert OccursAt(v, p, i - a);
    } else if i < a {
      assert Begins(v, p, j - a);
    } else if i < b {
      assert Ends(v, p, b - i);
    } else {
      assert OccursAt(r, p, i - b);
    }
  }

  /** A version that bridges nothing leaves no placeholder behind, so a second replacement is the identity. */
  lemma {:induction false} NoPlaceholderLeft(s: string, p: string, v: string)
    requires p != "" && !Bridges(v, p)
    ensures !Occurs(Replace(s, p, v), p)
    ensures Replace(Replace(s, p, v), p, v) == Replace(s, p, v)
    decreases |s|
  {
    var i := IndexFrom(s, p, 0);
    if i != -1 {
      var l, rest := s[..i], Replace(s[i + |p|..], p, v);
      NoPlaceholderLeft(s[i + |p|..], p, v);
      forall j ensures OccursAt(l, p, j) ==> OccursAt(s, p, j) && j < i {}
      forall j ensures !OccursAt(l + v + rest, p, j) {
        if OccursAt(l + v + rest, p, j) { OccurrenceCases(l, v, rest, p, j); }
      }
    }
    ReplaceWithoutOccurrence(Replace(s, p, v), p, v);
  }

  /** An occurrence before the shown one, but not wholly before it, overlaps it and makes a border of `p`. */
  lemma OverlapIsBorder(x: string, p: string, y: string, i: int)
    requires 0 <= i < |x| < i + |p| && OccursAt(x + p + y, p, i)
    ensures Ends(p, p, i + |p| - |x|)
  {
    var k := i + |p| - |x|;
    forall j | 0 <= j < k ensures p[|p| - k + j] == p[j] {
      assert (x + p + y)[i + (|p| - k + j)] == p[|p| - k + j];
    }
  }

  /** The first placeholder is the one shown. */
  lemma FirstShown(x: string, p: string, y: string)
    requires p != "" && Unbordered(p) && !Occurs(x, p)
    ensures IndexFrom(x + p + y, p, 0) == |x|
  {
    var s := x + p + y;
    assert OccursAt(s, p, |x|);
    forall i | i < |x| ensures !OccursAt(s, p, i) {
      if i + |p| <= |x| {
        assert OccursAt(s, p, i) ==> OccursAt(x, p, i);
      } else if OccursAt(s, p, i) {
        OverlapIsBorder(x, p, y, i);
      }
    }
  }

  /** A text cut at its first placeholder. */
  lemma ReplaceFirst(x: string, p: string, y: string, v: string)
    requires p != "" && Unbordered(p) && !Occurs(x, p)
    ensures Replace(x + p + y, p, v) == x + v + Replace(y, p, v)
  {
    FirstShown(x, p, y);
    assert (x + p + y)[..|x|] == x && (x + p + y)[|x| + |p|..] == y;
  }

  // ---------- What the replacement does ----------

  /** The pieces of a file with a separator between them. */
  function Joined(xs: seq<string>, sep: string): string
    requires xs != []
  {
    if |xs| == 1 then xs[0] else xs[0] + sep + Joined(xs[1..], sep)
  }

  ghost predicate Free(xs: seq<string>, p: string) {
    forall i :: 0 <= i < |xs| ==> !Occurs(xs[i], p)
  }

  /** Every text is made of pieces without placeholder, with one placeholder between any two of them. */
  lemma {:induction false} Pieces(s: string, p: string) returns (xs: seq<string>)
    requires p != ""
    ensures xs != [] && Joined(xs, p) == s && Free(xs, p)
    decreases |s|
  {
    var i := IndexFrom(s, p, 0);
    if i == -1 {
      xs := [s];
    } else {
      var rest := Pieces(s[i + |p|..], p);
      xs := [s[..i]] + rest;
      forall j ensures !OccursAt(s[..i], p, j) { assert OccursAt(s[..i], p, j) ==> OccursAt(s, p, j) && j < i; }
      assert s == s[..i] + p + s[i + |p|..];
    }
  }

  /** The pieces stay as they are, and each placeholder between them becomes the version. */
  lemma {:induction false} PiecesStay(xs: seq<string>, p: string, v: string)
    requires p != "" && Unbordered(p) && xs != [] && Free(xs, p)
    ensures Replace(Joined(xs, p), p, v) == Joined(xs, v)
  {
    if |xs| == 1 {
      ReplaceWithoutOccurrence(xs[0], p, v);
    } else {
      PiecesStay(xs[1..], p, v);
      ReplaceFirst(xs[0], p, Joined(xs[1..], p), v);
    }
  }

  lemma ShortFree(x: string, p: string)
    requires |x| < |p|
    ensures !Occurs(x, p)
  {}

  /** `x + p + y` is replaced at the `p` shown when `x` and `y` are shorter than `p`. */
  lemma ReplaceOnce(x: string, p: string, y: string, v: string)
    requires Unbordered(p) && |x| < |p| && |y| < |p|
    ensures Replace(x + p + y, p, v) == x + v + y
  {
    ShortFree(x, p);
    ShortFree(y, p);
    ReplaceFirst(x, p, y, v);
    ReplaceWithoutOccurrence(y, p, v);
  }

  /** A version that bridges is caught by some file: after the replacement a placeholder remains. */
  lemma BridgeLeavesPlaceholder(p: string, v: string) returns (s: string)
    requires 1 < |p| && Unbordered(p) && Bridges(v, p)
    ensures Occurs(Replace(s, p, v), p)
  {
    var x, y := "", "";
    if v == "" {
      x, y := p[..1], p[1..];
      assert OccursAt(x + v + y, p, 0);
    } else if Occurs(v, p) {
      var i :| OccursAt(v, p, i);
      assert OccursAt(x + v + y, p, i);
    } else if Occurs(p, v) {
      var i :| OccursAt(p, v, i);
      x, y := p[..i], p[i + |v|..];
      assert OccursAt(x + v + y, p, 0);
    } else if k :| 0 < k < |p| && Ends(v, p, k) {
      y := p[k..];
      assert OccursAt(x + v + y, p, |v| - k);
    } else {
      var k :| 0 < k < |p| && Begins(v, p, k);
      x := p[..|p| - k];
      assert OccursAt(x + v + y, p, 0);
    }
    s := x + p + y;
    ReplaceOnce(x, p, y, v);
  }

  /** Whatever the file, no placeholder is left. */
  ghost predicate AlwaysClean(p: string, v: string)
    requires p != ""
  {
    forall s :: !Occurs(Replace(s, p, v), p)
  }

  /** The exact condition, for every version: all files come out clean if and only if the version bridges nothing. */
  lemma CleanExactlyWhenNoBridge(p: string, v: string)
    requires 1 < |p| && Unbordered(p)
    ensures AlwaysClean(p, v) <==> !Bridges(v, p)
  {
    if Bridges(v, p) {
      var s := BridgeLeavesPlaceholder(p, v);
      assert !AlwaysClean(p, v);
    } else {
      forall s ensures !Occurs(Replace(s, p, v), p) { NoPlaceholderLeft(s, p, v); }
    }
  }

  // ---------- The placeholder of the promotion service ----------

  lemma BorderHead(p: string, k: nat)
    requires Ends(p, p, k)
    ensures 0 < k ==> p[|p| - k] == p[0]
    ensures 1 < k ==> p[|p| - k + 1] == p[1]
  {
    assert 0 < k ==> p[|p| - k + 0] == p[0];
  }

  /** A text that starts with its only pair of `c` and does not end with `c` has no border. */
  lemma PairHeadUnbordered(p: string, c: char)
    requires 2 < |p| && p[0] == p[1] == c && forall i :: 2 <= i < |p| ==> p[i] != c
    ensures Unbordered(p)
  {
    forall k | 0 < k < |p| ensures !Ends(p, p, k) {
      if Ends(p, p, k) { BorderHead(p, k); }
    }
  }

  /** The placeholder after its two opening braces. */
  const REST := " keptn/ImageVersion }}"

  lemma PlaceholderUnbordered()
    ensures Unbordered(IMAGE_VERSION)
  {
    var p := IMAGE_VERSION;
    assert p == "{{" + REST && '{' !in REST;
    forall i | 2 <= i < |p| ensures p[i] != '{' { assert p[i] == REST[i - 2] && REST[i - 2] in REST; }
    PairHeadUnbordered(p, '{');
  }

  /** For the placeholder of the promotion service. */
  lemma VersionFilledIn(xs: seq<string>, v: string)
    requires xs != [] && Free(xs, IMAGE_VERSION)
    ensures Replace(Joined(xs, "{{ keptn/ImageVersion }}"), IMAGE_VERSION, v) == Joined(xs, v)
  {
    PlaceholderUnbordered();
    PiecesStay(xs, IMAGE_VERSION, v);
  }

  /** A version without braces and with some character outside the placeholder bridges nothing. */
  lemma PlainVersionBridgesNothing(v: string, c: char)
    requires '{' !in v && '}' !in v && c in v && c !in IMAGE_VERSION
    ensures !Bridges(v, IMAGE_VERSION)
  {
    var p := IMAGE_VERSION;
    var last := |p| - 1;
    assert p[0] == '{' && p[last] == '}';
    PlainBridgesNothing(v, p, c, p[0], p[last]);
  }

  lemma PlainBridgesNothing(v: string, p: string, c: char, first: char, last: char)
    requires p != "" && p[0] == first && p[|p| - 1] == last
    requires first !in v && last !in v && c in v && c !in p
    ensures !Bridges(v, p)
  {
    var n :| 0 <= n < |v| && v[n] == c;
    forall i ensures !OccursAt(p, v, i) {
      if OccursAt(p, v, i) { OccurrenceHas(p, v, i, n); }
    }
    forall i ensures !OccursAt(v, p, i) {
      if OccursAt(v, p, i) { OccurrenceHas(v, p, i, 0); }
    }
    forall k: nat | 0 < k < |p| ensures !Ends(v, p, k) && !Begins(v, p, k) {
      if Ends(v, p, k) { EndHas(v, p, k); }
      if Begins(v, p, k) { BeginningHas(v, p, k); }
    }
  }

  lemma EndHas(v: string, p: string, k: nat)
    requires Ends(v, p, k) && 0 < k
    ensures p[0] in v
  {
    assert v[|v| - k + 0] == p[0];
  }

  lemma BeginningHas(v: string, p: string, k: nat)
    requires Begins(v, p, k) && 0 < k
    ensures p[|p| - 1] in v
  {
    assert v[k - 1] == p[|p| - k + (k - 1)];
  }

  /** What promotion relies on: an ordinary version leaves no placeholder, and replacing again changes nothing. */
  lemma VersionReplacedOnceAndForAll(s: string, v: string, c: char)
    requires '{' !in v && '}' !in v && c in v && c !in IMAGE_VERSION
    ensures !Occurs(Replace(s, IMAGE_VERSION, v), IMAGE_VERSION)
    ensures Replace(Replace(s, IMAGE_VERSION, v), IMAGE_VERSION, v) == Replace(s, IMAGE_VERSION, v)
  {
    PlainVersionBridgesNothing(v, c);
    NoPlaceholderLeft(s, IMAGE_VERSION, v);
  }

  /** Without the side condition it fails: the version "keptn" can complete a placeholder. */
  lemma KeptnBridges() returns (s: string)
    ensures Occurs(Replace(s, IMAGE_VERSION, "keptn"), IMAGE_VERSION)
  {
    assert OccursAt(IMAGE_VERSION, "keptn", 3);
    PlaceholderUnbordered();
    s := BridgeLeavesPlaceholder(IMAGE_VERSION, "keptn");
  }
}
