/**
 Where a promoted file goes: the walked path is cut at the first occurrence of the service name and the rest is
 joined to the destination (promotion-service/pkg/utils/githandler.go:224-236).
 */
module ServicePath {
  import opened Wrappers
  import opened Substrings
  import opened FileTree

  /** A name a directory can list. */
  predicate ValidName(n: string) {
    n != "" && '/' !in n && n != "." && n != ".."
  }

  predicate ValidPath(p: Path) {
    forall i :: 0 <= i < |p| ==> ValidName(p[i])
  }

  /** The absolute path as the program sees it. */
  function Render(p: Path): string {
    if p == [] then "" else "/" + p[0] + Render(p[1..])
  }

  /** The non-empty components of a slash-separated string. */
  function Components(s: string): Path
    decreases |s|
  {
    if s == "" then []
    else if s[0] == '/' then Components(s[1..])
    else
      var i := IndexFrom(s, "/", 0);
      if i <= 0 then [s] else [s[..i]] + Components(s[i..])
  }

  /** `filepath.Clean` on the components of an absolute path. */
  function Clean(p: Path): Path {
    if p == [] then []
    else
      var q, last := Clean(p[..|p| - 1]), p[|p| - 1];
      if last == "." then q
      else if last == ".." then (if q == [] then [] else q[..|q| - 1])
      else q + [last]
  }

  /** `filepath.Join(dest, tail)`. */
  function Join(dest: Path, tail: string): Path {
    Clean(dest + Components(tail))
  }

  /** `path[strings.Index(path, svc) + len(svc):]`, or nothing when the name does not occur. */
  function CutAfter(path: string, svc: string): Option<string> {
    var i := IndexFrom(path, svc, 0);
    if i < 0 then None else Some(path[i + |svc|..])
  }

  /** The new name `moveFiles` gives a walked path, or nothing for its "not found in path" error. */
  function Destination(path: Path, svc: string, dest: Path): Option<Path> {
    match CutAfter(Render(path), svc)
    case None => None
    case Some(tail) => Some(Join(dest, tail))
  }

  lemma {:induction false} RenderConcat(p: Path, q: Path)
    ensures Render(p + q) == Render(p) + Render(q)
  {
    if p == [] {
      assert p + q == q;
    } else {
      RenderConcat(p[1..], q);
      assert (p + q)[1..] == p[1..] + q;
    }
  }

  lemma ComponentsOpen(c: string, r: string)
    requires c != "" && '/' !in c && (r == "" || r[0] == '/')
    ensures Components(c + r) == [c] + Components(r)
  {
    var s := c + r;
    DropFront(c, r);
    forall i | 0 <= i < |c| ensures !OccursAt(s, "/", i) {
      assert s[i] == c[i] && c[i] in c;
      Mismatch(s, "/", i, 0);
    }
    if r == "" {
      assert s == c;
      NoSlash(s);
    } else {
      assert OccursAt(s, "/", |c|);
    }
  }

  lemma ComponentsCons(c: string, r: string)
    requires ValidName(c) && (r == "" || r[0] == '/')
    ensures Components("/" + c + r) == [c] + Components(r)
  {
    DropFront("/", c + r);
    assert "/" + c + r == "/" + (c + r);
    ComponentsOpen(c, r);
  }

  lemma {:induction false} ComponentsOfRender(p: Path)
    requires ValidPath(p)
    ensures Components(Render(p)) == p
  {
    if p != [] {
      ComponentsOfRender(p[1..]);
      ComponentsCons(p[0], Render(p[1..]));
    }
  }

  lemma NoSlash(s: string)
    requires '/' !in s
    ensures IndexFrom(s, "/", 0) == -1
  {
    forall i ensures !OccursAt(s, "/", i) {
      if OccursAt(s, "/", i) { OccurrenceHas(s, "/", i, 0); }
    }
  }

  lemma {:induction false} CleanValid(p: Path)
    requires ValidPath(p)
    ensures Clean(p) == p
  {
    if p != [] { CleanValid(p[..|p| - 1]); }
  }

  // ---------- The first occurrence ----------

  /** The service name is no part of any directory name above the service directory. */
  ghost predicate WellPlaced(prefix: Path, svc: string) {
    forall c :: c in prefix ==> !Occurs(c, svc)
  }

  /** A slash-free name that occurs before the end of `prefix` occurs inside one of its components. */
  lemma {:induction false} OccurrenceInComponent(prefix: Path, rest: string, svc: string, i: int)
    requires svc != "" && '/' !in svc && rest != "" && rest[0] == '/'
    requires i <= |Render(prefix)| && OccursAt(Render(prefix) + rest, svc, i)
    ensures !WellPlaced(prefix, svc)
  {
    var s := Render(prefix) + rest;
    if prefix == [] || i == 0 {
      assert s[0] == '/';
      OccurrenceChar(s, svc, i, 0);
    } else {
      var c, r := prefix[0], Render(prefix[1..]) + rest;
      assert s == "/" + c + r;
      if i + |svc| <= 1 + |c| {
        assert OccursAt(c, svc, i - 1);
        assert c in prefix;
      } else if i <= |c| {
        assert s[|c| + 1] == r[0] == '/';
        OccurrenceChar(s, svc, i, |c| + 1 - i);
      } else {
        assert OccursAt(r, svc, i - 1 - |c|);
        OccurrenceInComponent(prefix[1..], rest, svc, i - 1 - |c|);
        assert forall d :: d in prefix[1..] ==> d in prefix;
      }
    }
  }

  lemma {:induction false} ComponentOccurrence(prefix: Path, rest: string, svc: string)
    returns (i: nat)
    requires !WellPlaced(prefix, svc)
    ensures i <= |Render(prefix)| - |svc| && OccursAt(Render(prefix) + rest, svc, i)
  {
    var c :| c in prefix && Occurs(c, svc);
    if Occurs(prefix[0], svc) {
      var j :| OccursAt(prefix[0], svc, j);
      i := j + 1;
    } else {
      var j := ComponentOccurrence(prefix[1..], rest, svc);
      i := 1 + |prefix[0]| + j;
      assert Render(prefix) + rest == "/" + prefix[0] + (Render(prefix[1..]) + rest);
    }
  }

  /** The cut yields the path below the service directory exactly when the service name is well placed. */
  lemma CutExactlyWhenWellPlaced(prefix: Path, svc: string, rel: Path)
    requires svc != "" && '/' !in svc
    ensures CutAfter(Render(prefix + [svc] + rel), svc) == Some(Render(rel)) <==> WellPlaced(prefix, svc)
  {
    RenderConcat(prefix + [svc], rel);
    RenderConcat(prefix, [svc]);
    assert Render([svc]) == "/" + svc + Render([]);
    assert Render(prefix + [svc] + rel) == Render(prefix) + ("/" + svc + Render(rel));
    CutString(prefix, svc, Render(rel));
  }

  lemma CutString(prefix: Path, svc: string, tail: string)
    requires svc != "" && '/' !in svc
    ensures CutAfter(Render(prefix) + ("/" + svc + tail), svc) == Some(tail) <==> WellPlaced(prefix, svc)
  {
    var rest := "/" + svc + tail;
    var s := Render(prefix) + rest;
    var front := Render(prefix) + "/";
    assert s == front + svc + tail;
    DropFront(front + svc, tail);
    FirstAtMost(front, svc, tail);
    var first := IndexFrom(s, svc, 0);
    if WellPlaced(prefix, svc) {
      if first < |front| { OccurrenceInComponent(prefix, rest, svc, first); }
    } else {
      var i := ComponentOccurrence(prefix, rest, svc);
      assert first <= i;
    }
  }

  lemma FirstAtMost(front: string, svc: string, tail: string)
    ensures 0 <= IndexFrom(front + svc + tail, svc, 0) <= |front|
  {
    assert OccursAt(front + svc + tail, svc, |front|);
  }

  /** Every walked path goes to the destination plus its path below the source root. */
  lemma DestinationIsRelative(prefix: Path, svc: string, rel: Path, dest: Path)
    requires svc != "" && '/' !in svc && WellPlaced(prefix, svc) && ValidPath(rel) && ValidPath(dest)
    ensures Destination(prefix + [svc] + rel, svc, dest) == Some(dest + rel)
  {
    CutExactlyWhenWellPlaced(prefix, svc, rel);
    ComponentsOfRender(rel);
    CleanValid(dest + rel);
  }

  /** Two walked paths never share a destination. */
  lemma DestinationInjective(prefix: Path, svc: string, rel: Path, rel': Path, dest: Path)
    requires svc != "" && '/' !in svc && WellPlaced(prefix, svc) && ValidPath(rel) && ValidPath(rel') && ValidPath(dest)
    requires rel != rel'
    ensures Destination(prefix + [svc] + rel, svc, dest) != Destination(prefix + [svc] + rel', svc, dest)
  {
    DestinationIsRelative(prefix, svc, rel, dest);
    DestinationIsRelative(prefix, svc, rel', dest);
    assert (dest + rel)[|dest|..] == rel && (dest + rel')[|dest|..] == rel';
  }

  // ---------- A service name that is not well placed ----------

  lemma {:induction false} CleanAppend(p: Path, q: Path)
    requires ValidPath(q)
    ensures Clean(p + q) == Clean(p) + q
  {
    if q == [] {
      assert p + q == p;
    } else {
      CleanAppend(p, q[..|q| - 1]);
      assert (p + q)[..|p + q| - 1] == p + q[..|q| - 1];
    }
  }

  /** Where the first directory above the service whose name holds the service name takes the destination. */
  function Strayed(dest: Path, left: string): Path {
    if left == "" || left == "." then dest
    else if left == ".." then (if dest == [] then [] else dest[..|dest| - 1])
    else dest + [left]
  }

  /** The cut is made in that directory's name and leaves the rest of the name. */
  lemma CutInComponent(above: Path, c: string, tail: string, svc: string)
    requires svc != "" && '/' !in svc && WellPlaced(above, svc) && Occurs(c, svc) && tail != "" && tail[0] == '/'
    ensures CutAfter(c, svc).Some?
    ensures CutAfter(Render(above) + ("/" + c + tail), svc) == Some(CutAfter(c, svc).value + tail)
  {
    assert Render(above) + ("/" + c + tail) == Render(above) + "/" + c + tail;
    NoneInFront(above, c, tail, svc);
    CutInside(Render(above) + "/", c, tail, svc);
  }

  /** Without an occurrence in front, the cut in the whole is the cut in `c`. */
  lemma CutInside(front: string, c: string, tail: string, svc: string)
    requires Occurs(c, svc) && forall i :: i < |front| ==> !OccursAt(front + c + tail, svc, i)
    ensures CutAfter(c, svc).Some? && CutAfter(front + c + tail, svc) == Some(CutAfter(c, svc).value + tail)
  {
    FirstInComponent(front, c, tail, svc);
    DropInside(front, c, tail, IndexFrom(c, svc, 0) + |svc|);
  }

  lemma DropInside(front: string, c: string, tail: string, n: nat)
    requires n <= |c|
    ensures (front + c + tail)[|front| + n..] == c[n..] + tail
  {
    assert front + c + tail == (front + c[..n]) + (c[n..] + tail);
    DropFront(front + c[..n], c[n..] + tail);
  }

  lemma NoneInFront(above: Path, c: string, tail: string, svc: string)
    requires svc != "" && '/' !in svc && WellPlaced(above, svc)
    ensures forall i :: i <= |Render(above)| ==> !OccursAt(Render(above) + "/" + c + tail, svc, i)
  {
    assert Render(above) + "/" + c + tail == Render(above) + ("/" + c + tail);
    forall i | i <= |Render(above)| && OccursAt(Render(above) + ("/" + c + tail), svc, i) ensures false {
      OccurrenceInComponent(above, "/" + c + tail, svc, i);
    }
  }

  lemma OccursInside(front: string, c: string, tail: string, svc: string, j: nat)
    requires j + |svc| <= |c|
    ensures OccursAt(front + c + tail, svc, |front| + j) <==> OccursAt(c, svc, j)
  {
    var s := front + c + tail;
    forall m | 0 <= m < |c| ensures s[|front| + m] == c[m] {}
  }

  lemma FirstInComponent(front: string, c: string, tail: string, svc: string)
    requires Occurs(c, svc) && forall i :: i < |front| ==> !OccursAt(front + c + tail, svc, i)
    ensures IndexFrom(c, svc, 0) >= 0
    ensures IndexFrom(front + c + tail, svc, 0) == |front| + IndexFrom(c, svc, 0)
  {
    var s, k := front + c + tail, IndexFrom(c, svc, 0);
    OccursInside(front, c, tail, svc, k);
    var first := IndexFrom(s, svc, 0);
    if |front| <= first < |front| + k { OccursInside(front, c, tail, svc, first - |front|); }
  }

  lemma CleanStrayed(dest: Path, left: string)
    requires ValidPath(dest) && left != ""
    ensures Clean(dest + [left]) == Strayed(dest, left)
  {
    CleanValid(dest);
    assert (dest + [left])[..|dest + [left]| - 1] == dest;
  }

  lemma JoinAll(dest: Path, q: Path)
    requires ValidPath(q) && ValidPath(dest)
    ensures Join(dest, Render(q)) == dest + q
  {
    ComponentsOfRender(q);
    CleanValid(dest);
    CleanAppend(dest, q);
  }

  lemma JoinLeft(dest: Path, left: string, q: Path)
    requires left != "" && '/' !in left && ValidPath(q) && ValidPath(dest) && q != []
    ensures Join(dest, left + Render(q)) == Clean(dest + [left]) + q
  {
    ComponentsOfRender(q);
    ComponentsOpen(left, Render(q));
    assert dest + ([left] + q) == (dest + [left]) + q;
    CleanAppend(dest + [left], q);
  }

  lemma JoinStrayed(dest: Path, left: string, q: Path)
    requires '/' !in left && ValidPath(q) && ValidPath(dest) && q != []
    ensures Join(dest, left + Render(q)) == Strayed(dest, left) + q
  {
    if left == "" {
      assert left + Render(q) == Render(q);
      JoinAll(dest, q);
    } else {
      JoinLeft(dest, left, q);
      CleanStrayed(dest, left);
    }
  }

  /**
   Where the files of a misplaced service end up: below the place to which the first such directory `c` strays, under
   the directories that follow it and the service's own name.
   */
  lemma DestinationOfMisplaced(above: Path, c: string, below: Path, svc: string, rel: Path, dest: Path)
    requires ValidPath(above + [c] + below + [svc] + rel) && ValidPath(dest)
    requires svc != "" && '/' !in svc && WellPlaced(above, svc) && Occurs(c, svc)
    ensures CutAfter(c, svc).Some?
    ensures Destination(above + [c] + below + [svc] + rel, svc, dest) ==
            Some(Strayed(dest, CutAfter(c, svc).value) + below + [svc] + rel)
  {
    var q := below + [svc] + rel;
    assert above + [c] + below + [svc] + rel == above + [c] + q;
    DestinationBehind(above, c, q, svc, dest);
    var place := Strayed(dest, CutAfter(c, svc).value);
    assert place + q == place + below + [svc] + rel;
  }

  lemma DestinationBehind(above: Path, c: string, q: Path, svc: string, dest: Path)
    requires ValidPath(above + [c] + q) && ValidPath(dest) && q != []
    requires svc != "" && '/' !in svc && WellPlaced(above, svc) && Occurs(c, svc)
    ensures CutAfter(c, svc).Some?
    ensures Destination(above + [c] + q, svc, dest) == Some(Strayed(dest, CutAfter(c, svc).value) + q)
  {
    WalkedParts(above, c, q);
    CutInComponent(above, c, Render(q), svc);
    var left := CutAfter(c, svc).value;
    assert forall i :: 0 <= i < |left| ==> left[i] in c;
    JoinStrayed(dest, left, q);
  }

  lemma WalkedParts(above: Path, c: string, q: Path)
    requires ValidPath(above + [c] + q)
    ensures ValidName(c) && ValidPath(q) && Render(above + [c] + q) == Render(above) + ("/" + c + Render(q))
  {
    var p := above + [c] + q;
    assert p[|above|] == c && forall i :: 0 <= i < |q| ==> q[i] == p[|above| + 1 + i];
    assert p == above + ([c] + q);
    RenderConcat(above, [c] + q);
    assert ([c] + q)[1..] == q;
  }

  lemma {:induction false} FirstMisplaced(prefix: Path, svc: string) returns (k: nat)
    requires !WellPlaced(prefix, svc)
    ensures k < |prefix| && Occurs(prefix[k], svc) && WellPlaced(prefix[..k], svc)
  {
    var c :| c in prefix && Occurs(c, svc);
    if Occurs(prefix[0], svc) {
      k := 0;
    } else {
      var j := FirstMisplaced(prefix[1..], svc);
      k := j + 1;
      assert prefix[..k] == [prefix[0]] + prefix[1..][..j];
    }
  }

  /** The last directory above the service is the service name and two dots, and leads back to a directory so called. */
  ghost predicate LedBack(prefix: Path, svc: string, dest: Path) {
    && prefix != [] && WellPlaced(prefix[..|prefix| - 1], svc)
    && CutAfter(prefix[|prefix| - 1], svc) == Some("..")
    && dest != [] && dest[|dest| - 1] == svc
  }

  /**
   A walked path goes to the destination plus its path below the source root if and only if the name is well placed, or
   by the coincidence of `LedBack`.
   */
  lemma DestinationExactly(prefix: Path, svc: string, rel: Path, dest: Path)
    requires ValidPath(prefix + [svc] + rel) && ValidPath(dest)
    ensures Destination(prefix + [svc] + rel, svc, dest) == Some(dest + rel) <==>
            WellPlaced(prefix, svc) || LedBack(prefix, svc, dest)
  {
    var p := prefix + [svc] + rel;
    assert p[|prefix|] == svc && forall i :: 0 <= i < |rel| ==> rel[i] == p[|prefix| + 1 + i];
    if WellPlaced(prefix, svc) {
      DestinationIsRelative(prefix, svc, rel, dest);
    } else {
      var k := FirstMisplaced(prefix, svc);
      var above, c, below := prefix[..k], prefix[k], prefix[k + 1..];
      assert above + [c] + below == prefix;
      DestinationOfMisplaced(above, c, below, svc, rel, dest);
      StrayedBack(dest, CutAfter(c, svc).value, below, svc, rel);
      LedBackExactly(prefix, svc, dest, k);
    }
  }

  lemma StrayedBack(dest: Path, left: string, below: Path, svc: string, rel: Path)
    ensures Strayed(dest, left) + below + [svc] + rel == dest + rel <==>
            left == ".." && below == [] && dest != [] && dest[|dest| - 1] == svc
  {
    var q := Strayed(dest, left) + below + [svc];
    SameFront(q, dest, rel);
    if left != ".." || dest == [] || below != [] {
      assert |q| > |dest|;
    } else {
      assert q == dest[..|dest| - 1] + [svc];
      assert dest == dest[..|dest| - 1] + [dest[|dest| - 1]];
    }
  }

  lemma SameFront(p: Path, q: Path, rel: Path)
    ensures p + rel == q + rel <==> p == q
  {
    if p + rel == q + rel {
      assert |p| == |q|;
      assert p == (p + rel)[..|p|] && q == (q + rel)[..|q|];
    }
  }

  lemma LedBackExactly(prefix: Path, svc: string, dest: Path, k: nat)
    requires k < |prefix| && Occurs(prefix[k], svc) && WellPlaced(prefix[..k], svc)
    ensures LedBack(prefix, svc, dest) <==>
            k == |prefix| - 1 && CutAfter(prefix[k], svc) == Some("..") && dest != [] && dest[|dest| - 1] == svc
  {
    if k < |prefix| - 1 { assert prefix[..|prefix| - 1][k] in prefix[..|prefix| - 1]; }
  }

  /**
   A service called "master" is not well placed under the clone directory: its files go to a directory "1" that the
   destination does not need, under "base" and once more under "master".
   */
  lemma MasterIsMisplaced(rel: Path, dest: Path)
    requires ValidPath(rel) && ValidPath(dest)
    ensures Destination(["tmp", CLONE, "base", "master"] + rel, "master", dest) ==
            Some(dest + ["1", "base", "master"] + rel)
  {
    MasterFirst();
    MasterPath(rel);
    DestinationOfMisplaced(["tmp"], CLONE, ["base"], "master", rel, dest);
    MasterResult(rel, dest);
  }

  lemma MasterResult(rel: Path, dest: Path)
    ensures Strayed(dest, "1") + ["base"] + ["master"] + rel == dest + ["1", "base", "master"] + rel
  {}

  /** The directory of the clone. */
  const CLONE := "temp_dir_master1"

  lemma MasterPath(rel: Path)
    requires ValidPath(rel)
    ensures ["tmp", CLONE, "base", "master"] + rel == ["tmp"] + [CLONE] + ["base"] + ["master"] + rel
    ensures ValidPath(["tmp"] + [CLONE] + ["base"] + ["master"] + rel) && ValidName("master")
  {
    assert ValidName("tmp") && ValidName(CLONE) && ValidName("base") && ValidName("master");
  }

  lemma MasterFirst()
    ensures WellPlaced(["tmp"], "master") && Occurs(CLONE, "master") && CutAfter(CLONE, "master") == Some("1")
  {
    assert OccursAt(CLONE, "master", 9);
    forall i | OccursAt(CLONE, "master", i) ensures i == 9 {
      OccurrenceChar(CLONE, "master", i, 0);
      OccurrenceChar(CLONE, "master", i, 1);
    }
  }
}
