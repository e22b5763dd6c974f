/**
 The whole promotion of one service: clear, merge the Helm values, move, fill in the version, commit and push
 (promotion-service/pkg/utils/githandler.go:78-195 and 265-278).
 */
module StageUpdate {
  import opened Faults
  import opened Wrappers
  import opened FileTree
  import opened ServicePath
  import opened Delivery
  import opened Promotion
  import HelmValues
  import GitClient
  import Placeholder

  type Fields = HelmValues.Fields
  type Snapshot = GitClient.Snapshot

  /** YAML reading and writing; a file that is no mapping does not parse. */
  datatype Codec = Codec(parse: string -> Option<Fields>, marshal: Fields -> string)
  {
    ghost predicate RoundTrips() {
      forall v :: parse(marshal(v)) == Some(v)
    }
  }

  function ValuesPath(serviceDir: Path, svc: string): Path {
    serviceDir + ["helm", svc, "values.yaml"]
  }

  /** The mapping a file holds. */
  function FieldsAt(c: Codec, t: Tree, p: Path): Option<Fields> {
    if p in t && t[p].File? then c.parse(t[p].content) else None
  }

  function MergedFields(c: Codec, t: Tree, base: Path, over: Path, svc: string): Option<Fields> {
    HelmValues.MergeValues(FieldsAt(c, t, ValuesPath(base, svc)), FieldsAt(c, t, ValuesPath(over, svc)))
  }

  /** The tree after `mergeHelmValues`: the merge is written over the stage file when its directory exists. */
  function ValuesMerged(c: Codec, t: Tree, base: Path, over: Path, svc: string): Tree {
    match MergedFields(c, t, base, over, svc)
    case None => t
    case Some(m) =>
      if Writable(t, ValuesPath(over, svc)) then t[ValuesPath(over, svc) := File(c.marshal(m))] else t
  }

  /** `getValues`. */
  method GetValues(fs: FileSystem, c: Codec, p: Path) returns (fields: Option<Fields>)
    ensures fields == None || fields == FieldsAt(c, fs.tree, p)
    ensures fs.reliable ==> fields == FieldsAt(c, fs.tree, p)
  {
    var file := fs.Read(p);
    fields := if file.Some? then c.parse(file.value) else None;
  }

  /** `mergeHelmValues`. */
  method MergeHelmValues(fs: FileSystem, c: Codec, base: Path, over: Path, svc: string) returns (ok: bool)
    requires WellFormed(fs.tree)
    modifies fs
    ensures WellFormed(fs.tree)
    ensures forall q :: q != ValuesPath(over, svc) ==> At(fs.tree, q) == At(old(fs.tree), q)
    ensures fs.reliable ==> fs.tree == ValuesMerged(c, old(fs.tree), base, over, svc)
    ensures fs.reliable ==> (ok <==> MergedFields(c, old(fs.tree), base, over, svc).Some? &&
                                     Writable(old(fs.tree), ValuesPath(over, svc)))
  {
    var stageFields := GetValues(fs, c, ValuesPath(over, svc));
    var baseFields := GetValues(fs, c, ValuesPath(base, svc));
    var merged := HelmValues.MergeValues(baseFields, stageFields);
    if merged == None {
      return false;
    }
    ok := fs.WriteFile(ValuesPath(over, svc), c.marshal(merged.value));
  }

  // ---------- What the merge of the values does to the move ----------

  lemma ValuesPlaces(base: Path, over: Path, svc: string)
    requires Apart(base, over)
    ensures over < ValuesPath(over, svc) && base < ValuesPath(base, svc)
    ensures Under(base, ValuesPath(base, svc)) && Origin(over, base, ValuesPath(base, svc)) == ValuesPath(over, svc)
    ensures !Under(base, ValuesPath(over, svc)) && !Under(ValuesPath(over, svc), base)
  {
    var v := ValuesPath(over, svc);
    assert Under(over, v);
    if Under(base, v) { Comparable(base, over, v); }
    if Under(v, base) { UnderTrans(over, v, base); }
    assert ValuesPath(base, svc)[|base|..] == ["helm", svc, "values.yaml"];
  }

  /** Writing the merged values neither creates nor hides a clash. */
  lemma MovableAfterMerge(c: Codec, t: Tree, base: Path, over: Path, svc: string)
    requires Apart(base, over)
    ensures Movable(ValuesMerged(c, t, base, over, svc), base, over) <==> Movable(t, base, over)
  {
    var u := ValuesMerged(c, t, base, over, svc);
    var v, w := ValuesPath(over, svc), ValuesPath(base, svc);
    ValuesPlaces(base, over, svc);
    if u != t {
      forall q | Under(q, base) || Under(q, over) ensures q != v && At(u, q) == At(t, q) {
        if Under(q, over) { assert |q| <= |over|; }
      }
      forall q | Under(base, q)
        ensures At(u, q) == At(t, q)
        ensures q != w ==> At(u, Origin(over, base, q)) == At(t, Origin(over, base, q))
      {
        assert q != v;
        if Origin(over, base, q) == v {
          assert q[|base|..] == v[|over|..] == w[|base|..];
          assert q == base + q[|base|..];
        }
      }
      assert u[v].File? && (v in t ==> t[v].File?);
      assert v !in t ==> w in t && t[w].File?;
    }
  }

  /** The file at the values path before the version is filled in. */
  function ValuesBefore(c: Codec, t: Tree, base: Path, over: Path, svc: string): Option<Entry> {
    PromotedLeaf(ValuesMerged(c, t, base, over, svc), base, over, ["helm", svc, "values.yaml"])
  }

  /**
   The promoted values parse to `MergeValues(base, stage)` whenever one of the two files parses, even when the stage
   directory is missing and the merged file could not be written.
   */
  lemma PromotedValuesParse(c: Codec, t: Tree, base: Path, over: Path, svc: string)
    requires c.RoundTrips() && WellFormed(t) && Apart(base, over) && Movable(t, base, over)
    requires MergedFields(c, t, base, over, svc).Some?
    requires var v := ValuesPath(over, svc); v in t ==> !t[v].Symlink?
    ensures var e := ValuesBefore(c, t, base, over, svc);
      e.Some? && e.value.File? && c.parse(e.value.content) == MergedFields(c, t, base, over, svc)
  {
    if Writable(t, ValuesPath(over, svc)) {
      WrittenValuesParse(c, t, base, over, svc);
    } else {
      UnwrittenValuesParse(c, t, base, over, svc);
    }
  }

  /** The merge was written over the stage's file, which is the one that is promoted. */
  lemma WrittenValuesParse(c: Codec, t: Tree, base: Path, over: Path, svc: string)
    requires c.RoundTrips() && Apart(base, over) && Writable(t, ValuesPath(over, svc))
    requires MergedFields(c, t, base, over, svc).Some?
    ensures var e := ValuesBefore(c, t, base, over, svc);
      e.Some? && e.value.File? && c.parse(e.value.content) == MergedFields(c, t, base, over, svc)
  {
    assert over + ["helm", svc, "values.yaml"] == ValuesPath(over, svc);
  }

  /** Without a place for it there is no stage file, so the base's is promoted as it is. */
  lemma UnwrittenValuesParse(c: Codec, t: Tree, base: Path, over: Path, svc: string)
    requires WellFormed(t) && Apart(base, over) && !Writable(t, ValuesPath(over, svc))
    requires MergedFields(c, t, base, over, svc).Some? && Movable(t, base, over)
    requires var v := ValuesPath(over, svc); v in t ==> !t[v].Symlink?
    ensures var e := ValuesBefore(c, t, base, over, svc);
      e.Some? && e.value.File? && c.parse(e.value.content) == MergedFields(c, t, base, over, svc)
  {
    var v, w := ValuesPath(over, svc), ValuesPath(base, svc);
    ValuesPlaces(base, over, svc);
    assert v[..|v| - 1] == over + ["helm", svc];
    assert FieldsAt(c, t, v) == None;
    assert Under(base, w) && w in t && t[w].File?;
    assert over + ["helm", svc, "values.yaml"] == v && base + ["helm", svc, "values.yaml"] == w;
  }

  // ---------- The commit ----------

  /** The version filled into a file. */
  function Filled(e: Option<Entry>, version: string): Option<Entry> {
    if e.Some? && e.value.File?
    then Some(File(Placeholder.Replace(e.value.content, Placeholder.IMAGE_VERSION, version)))
    else e
  }

  /** The file is made of these pieces, with a placeholder between any two of them and none inside. */
  ghost predicate MadeOf(e: Option<Entry>, xs: seq<string>) {
    && xs != [] && Placeholder.Free(xs, Placeholder.IMAGE_VERSION)
    && e == Some(File(Placeholder.Joined(xs, Placeholder.IMAGE_VERSION)))
  }

  /** Then the filled file is made of the same pieces with the version between them, and every file is made of some. */
  lemma FilledPieces(e: Option<Entry>, xs: seq<string>, version: string)
    requires MadeOf(e, xs)
    ensures Filled(e, version) == Some(File(Placeholder.Joined(xs, version)))
  {
    Placeholder.VersionFilledIn(xs, version);
  }

  lemma FileMadeOf(e: Option<Entry>) returns (xs: seq<string>)
    requires e.Some? && e.value.File?
    ensures MadeOf(e, xs)
  {
    xs := Placeholder.Pieces(e.value.content, Placeholder.IMAGE_VERSION);
  }

  /** The leaf of the service directory at `rel` on the stage branch. */
  function ServiceLeaf(c: Codec, t: Tree, base: Path, over: Path, svc: string, version: string, rel: Path):
    Option<Entry>
  {
    if rel == ["helm", svc, "values.yaml"] then Filled(ValuesBefore(c, t, base, over, svc), version)
    else PromotedLeaf(t, base, over, rel)
  }

  /** The new commit of the stage branch: only the service directory differs from the commit before. */
  ghost predicate Promotes(c: Codec, t: Tree, prev: Snapshot, next: Snapshot, base: Path, over: Path, svc: string,
                           version: string)
  {
    forall r :: At(next, r) ==
      if Under([svc], r) then ServiceLeaf(c, t, base, over, svc, version, r[1..]) else At(prev, r)
  }

  ghost predicate KeepsOthers(prev: Snapshot, next: Snapshot, svc: string) {
    forall r :: !Under([svc], r) ==> At(next, r) == At(prev, r)
  }

  /** The upstream branch of a stage. */
  class StageBranch {
    var upstream: seq<Snapshot>
    const reliable: bool

    constructor (upstream: seq<Snapshot>, reliable: bool)
      ensures this.upstream == upstream && this.reliable == reliable
    {
      this.upstream := upstream;
      this.reliable := reliable;
    }

    /** Stage, commit and push. A failed `git add` is only logged, so the commit repeats the one before. */
    method CommitAndPush(snapshot: Snapshot) returns (ok: bool, ghost staged: Snapshot)
      requires upstream != []
      modifies this
      ensures upstream == if ok then old(upstream) + [staged] else old(upstream)
      ensures staged == snapshot || staged == old(upstream)[|old(upstream)| - 1]
      ensures reliable ==> ok && staged == snapshot
    {
      var fault := Fault(reliable);
      var index := if fault then upstream[|upstream| - 1] else snapshot;
      staged := index;
      fault := Fault(reliable);
      if fault {
        return false, staged;
      }
      fault := Fault(reliable);
      if fault {
        return false, staged;
      }
      upstream := upstream + [index];
      ok := true;
    }
  }

  /** `ReplaceInFile`. */
  method ReplaceInFile(fs: FileSystem, p: Path, version: string) returns (ok: bool)
    requires WellFormed(fs.tree)
    modifies fs
    ensures WellFormed(fs.tree)
    ensures forall q :: q != p ==> At(fs.tree, q) == At(old(fs.tree), q)
    ensures fs.reliable ==> LeafAt(fs.tree, p) == Filled(LeafAt(old(fs.tree), p), version)
    // The text around the placeholders is kept.
    ensures forall xs :: fs.reliable && MadeOf(LeafAt(old(fs.tree), p), xs) ==>
      LeafAt(fs.tree, p) == Some(File(Placeholder.Joined(xs, version)))
  {
    forall xs | MadeOf(LeafAt(fs.tree, p), xs)
      ensures Filled(LeafAt(fs.tree, p), version) == Some(File(Placeholder.Joined(xs, version)))
    {
      FilledPieces(LeafAt(fs.tree, p), xs, version);
    }
    var content := fs.Read(p);
    if content == None {
      return false;
    }
    ok := fs.WriteFile(p, Placeholder.Replace(content.value, Placeholder.IMAGE_VERSION, version));
  }

  // ---------- The whole update ----------

  /** Trees that agree at, above and below both sources. */
  ghost predicate SameSources(t: Tree, u: Tree, base: Path, over: Path) {
    forall q :: Under(base, q) || Under(over, q) || Under(q, base) || Under(q, over) ==> At(u, q) == At(t, q)
  }

  lemma RemovalKeepsSources(t: Tree, u: Tree, base: Path, over: Path, dest: Path)
    requires RemovedAt(t, u, dest) && Apart(base, dest) && Apart(over, dest)
    ensures SameSources(t, u, base, over)
  {
    forall q | Under(base, q) || Under(over, q) || Under(q, base) || Under(q, over) ensures !Under(dest, q) {
      if Under(dest, q) {
        if Under(base, q) { Comparable(base, dest, q); }
        if Under(over, q) { Comparable(over, dest, q); }
        if Under(q, base) { UnderTrans(dest, q, base); }
        if Under(q, over) { UnderTrans(dest, q, over); }
      }
    }
  }

  lemma SameSourcesMovable(t: Tree, u: Tree, base: Path, over: Path)
    requires SameSources(t, u, base, over)
    ensures Movable(u, base, over) <==> Movable(t, base, over)
  {
    forall q | Under(base, q)
      ensures At(u, q) == At(t, q) && At(u, Origin(over, base, q)) == At(t, Origin(over, base, q))
    {
      assert Under(over, Origin(over, base, q));
    }
    forall q | Under(q, base) || Under(q, over) ensures At(u, q) == At(t, q) {}
  }

  lemma SameSourcesLeaf(c: Codec, t: Tree, u: Tree, base: Path, over: Path, svc: string, rel: Path)
    requires SameSources(t, u, base, over) && Apart(base, over)
    ensures PromotedLeaf(ValuesMerged(c, u, base, over, svc), base, over, rel) ==
            if rel == ["helm", svc, "values.yaml"] then ValuesBefore(c, t, base, over, svc)
            else PromotedLeaf(t, base, over, rel)
  {
    var v, w := ValuesPath(over, svc), ValuesPath(base, svc);
    var dir := v[..|v| - 1];
    assert dir == over + ["helm", svc];
    assert At(u, v) == At(t, v) && At(u, w) == At(t, w) && At(u, dir) == At(t, dir) by {
      assert Under(over, v) && Under(base, w) && Under(over, dir);
    }
    assert At(u, over + rel) == At(t, over + rel) && At(u, base + rel) == At(t, base + rel) by {
      assert Under(over, over + rel) && Under(base, base + rel);
    }
    assert Writable(u, v) <==> Writable(t, v);
    ValuesPlaces(base, over, svc);
    assert base + rel != v by { assert Under(base, base + rel); }
    if over + rel == v { assert rel == v[|over|..]; }
  }

  /** Everything of the stage clone outside the service directory is unchanged. */
  ghost predicate CloneKept(t: Tree, u: Tree, stageClone: Path, svc: string) {
    forall q :: Under(stageClone, q) && !Under(stageClone + [svc], q) ==> At(u, q) == At(t, q)
  }

  /** Outside the service directory only the stage's values file may differ. */
  ghost predicate OnlyValues(t: Tree, u: Tree, master: Path, stageClone: Path, svc: string, stage: string) {
    forall q :: !Under(stageClone + [svc], q) && q != ValuesPath(StageDir(master, stage, svc), svc) ==>
      At(u, q) == At(t, q)
  }

  lemma ValuesPathValid(master: Path, stage: string, svc: string)
    requires ValidPath(master) && ValidName(stage) && ValidName(svc)
    ensures ValidPath(ValuesPath(StageDir(master, stage, svc), svc))
    ensures Under(master, ValuesPath(StageDir(master, stage, svc), svc))
    ensures |master| < |ValuesPath(StageDir(master, stage, svc), svc)|
  {
    assert ValidPath(StageDir(master, stage, svc));
    assert ValidPath(["helm", svc, "values.yaml"]);
  }

  lemma StageCloneKept(t: Tree, u: Tree, master: Path, stageClone: Path, svc: string, stage: string)
    requires Apart(master, stageClone) && OnlyValues(t, u, master, stageClone, svc, stage)
    requires Under(master, ValuesPath(StageDir(master, stage, svc), svc))
    ensures CloneKept(t, u, stageClone, svc)
    ensures At(u, master) == At(t, master) || Under(ValuesPath(StageDir(master, stage, svc), svc), master)
    ensures At(u, stageClone) == At(t, stageClone)
    ensures forall q :: Under(master, q) && q != ValuesPath(StageDir(master, stage, svc), svc) ==> At(u, q) == At(t, q)
  {
    var v, dest := ValuesPath(StageDir(master, stage, svc), svc), stageClone + [svc];
    assert Under(stageClone, dest) && !Under(dest, stageClone);
    forall q | Under(stageClone, q) ensures q != v { ApartDeep(master, stageClone, v, q); }
    forall q | Under(master, q) ensures !Under(dest, q) {
      if Under(dest, q) { UnderTrans(stageClone, dest, q); Comparable(master, stageClone, q); }
    }
    assert Under(master, master);
  }

  /** Clearing and merging leave the clones in place. */
  lemma StillWellPlaced(t: Tree, u: Tree, master: Path, stageClone: Path, svc: string, stage: string)
    requires WellPlacedPromotion(t, master, stageClone, svc, stage) && WellFormed(u)
    requires OnlyValues(t, u, master, stageClone, svc, stage)
    ensures WellPlacedPromotion(u, master, stageClone, svc, stage) && CloneKept(t, u, stageClone, svc)
  {
    ValuesPathValid(master, stage, svc);
    StageCloneKept(t, u, master, stageClone, svc, stage);
    forall q | q in Subtree(u, master) ensures ValidPath(q) {
      if q != ValuesPath(StageDir(master, stage, svc), svc) {
        assert At(u, q) == At(t, q);
        assert q in Subtree(t, master);
      }
    }
  }

  lemma UnderAppended(a: Path, n: string, r: Path)
    requires Under(a + [n], a + r)
    ensures Under([n], r)
  {
    assert (a + r)[|a|] == (a + [n])[|a|];
  }

  lemma OthersKept(t: Tree, u: Tree, stageClone: Path, svc: string)
    requires CloneKept(t, u, stageClone, svc)
    ensures KeepsOthers(SnapshotOf(t, stageClone), SnapshotOf(u, stageClone), svc)
  {
    forall r | !Under([svc], r) ensures At(SnapshotOf(u, stageClone), r) == At(SnapshotOf(t, stageClone), r) {
      SnapshotAt(t, stageClone, r);
      SnapshotAt(u, stageClone, r);
      assert Under(stageClone, stageClone + r);
      if Under(stageClone + [svc], stageClone + r) { UnderAppended(stageClone, svc, r); }
    }
  }

  /** Only the file at `v` differs, by the version filled in. */
  ghost predicate FilledAt(t3: Tree, t4: Tree, v: Path, version: string) {
    LeafAt(t4, v) == Filled(LeafAt(t3, v), version) && forall q :: q != v ==> At(t4, q) == At(t3, q)
  }

  /** What the commit records of the service directory. */
  lemma PromotionRecorded(c: Codec, t: Tree, u: Tree, t3: Tree, t4: Tree, base: Path, over: Path, stageClone: Path,
                          svc: string, version: string)
    requires SameSources(t, u, base, over) && Apart(base, over)
    requires Overlaid(ValuesMerged(c, u, base, over, svc), t3, base, over, stageClone + [svc])
    requires FilledAt(t3, t4, ValuesPath(stageClone + [svc], svc), version)
    requires KeepsOthers(SnapshotOf(t, stageClone), SnapshotOf(t4, stageClone), svc)
    ensures Promotes(c, t, SnapshotOf(t, stageClone), SnapshotOf(t4, stageClone), base, over, svc, version)
  {
    forall r | Under([svc], r)
      ensures At(SnapshotOf(t4, stageClone), r) == ServiceLeaf(c, t, base, over, svc, version, r[1..])
    {
      ServiceRecorded(c, t, u, t3, t4, base, over, stageClone, svc, version, r);
    }
  }

  lemma ServiceRecorded(c: Codec, t: Tree, u: Tree, t3: Tree, t4: Tree, base: Path, over: Path, stageClone: Path,
                        svc: string, version: string, r: Path)
    requires SameSources(t, u, base, over) && Apart(base, over) && Under([svc], r)
    requires Overlaid(ValuesMerged(c, u, base, over, svc), t3, base, over, stageClone + [svc])
    requires FilledAt(t3, t4, ValuesPath(stageClone + [svc], svc), version)
    ensures At(SnapshotOf(t4, stageClone), r) == ServiceLeaf(c, t, base, over, svc, version, r[1..])
  {
    var rel := r[1..];
    SnapshotAt(t4, stageClone, r);
    SameSourcesLeaf(c, t, u, base, over, svc, rel);
    FilledLeaf(ValuesMerged(c, u, base, over, svc), t3, t4, base, over, stageClone + [svc], svc, version, rel);
    assert r == [svc] + rel;
    assert stageClone + r == stageClone + [svc] + rel;
  }

  lemma FilledLeaf(u: Tree, t3: Tree, t4: Tree, base: Path, over: Path, dest: Path, svc: string, version: string,
                   rel: Path)
    requires Overlaid(u, t3, base, over, dest)
    requires FilledAt(t3, t4, ValuesPath(dest, svc), version)
    ensures LeafAt(t4, dest + rel) ==
            if rel == ["helm", svc, "values.yaml"] then Filled(PromotedLeaf(u, base, over, rel), version)
            else PromotedLeaf(u, base, over, rel)
  {
    var q := dest + rel;
    assert Under(dest, q) && q[|dest|..] == rel;
    assert ValuesPath(dest, svc)[|dest|..] == ["helm", svc, "values.yaml"];
    assert LeafAt(t3, q) == PromotedLeaf(u, base, over, rel);
    if q != ValuesPath(dest, svc) { assert At(t4, q) == At(t3, q); }
  }

  /** Lines 128-136: clear the service directory and merge the values; failures are only logged. */
  method ClearAndMerge(fs: FileSystem, c: Codec, svc: string, stage: string, master: Path, stageClone: Path,
                       ghost base: Path, ghost over: Path)
    requires WellPlacedPromotion(fs.tree, master, stageClone, svc, stage)
    requires base == BaseDir(master, svc) && over == StageDir(master, stage, svc)
    modifies fs
    ensures WellPlacedPromotion(fs.tree, master, stageClone, svc, stage)
    ensures CloneKept(old(fs.tree), fs.tree, stageClone, svc)
    ensures fs.reliable ==> Fresh(fs.tree, stageClone + [svc])
    ensures fs.reliable ==> (Movable(fs.tree, base, over) <==> Movable(old(fs.tree), base, over))
    ensures fs.reliable ==> PreparedFrom(c, old(fs.tree), fs.tree, base, over, svc)
  {
    ghost var t := fs.tree;
    BasePaths(t, master, stageClone, svc);
    StagePaths(t, master, stageClone, svc, stage);
    BaseStageApart(master, stage, svc);
    NoFileAboveChild(t, stageClone, svc);
    var cleared := fs.RemoveAll(stageClone + [svc]);
    ghost var t1 := fs.tree;
    var merged := MergeHelmValues(fs, c, BaseDir(master, svc), StageDir(master, stage, svc), svc);
    StillWellPlaced(t, fs.tree, master, stageClone, svc, stage);
    if fs.reliable { ClearedAndMerged(c, t, t1, base, over, stageClone + [svc], svc); }
  }

  /** `u` is the tree with the merged values, made from a tree with the same sources as `t`. */
  ghost predicate PreparedFrom(c: Codec, t: Tree, u: Tree, base: Path, over: Path, svc: string) {
    exists t1 :: SameSources(t, t1, base, over) && u == ValuesMerged(c, t1, base, over, svc)
  }

  /** Lines 138-147: move the files and fill in the version. */
  method MoveAndFill(fs: FileSystem, c: Codec, svc: string, stage: string, version: string, master: Path,
                     stageClone: Path, ghost t: Tree, ghost base: Path, ghost over: Path)
    returns (ok: bool)
    requires WellPlacedPromotion(fs.tree, master, stageClone, svc, stage) && CloneKept(t, fs.tree, stageClone, svc)
    requires base == BaseDir(master, svc) && over == StageDir(master, stage, svc)
    requires fs.reliable ==> Fresh(fs.tree, stageClone + [svc]) && PreparedFrom(c, t, fs.tree, base, over, svc)
    modifies fs
    ensures KeepsOthers(SnapshotOf(t, stageClone), SnapshotOf(fs.tree, stageClone), svc)
    ensures fs.reliable ==> (ok <==> Movable(old(fs.tree), base, over))
    ensures fs.reliable && ok ==>
      Promotes(c, t, SnapshotOf(t, stageClone), SnapshotOf(fs.tree, stageClone), base, over, svc, version)
  {
    ghost var t2 := fs.tree;
    ok := PerformFileMove(fs, svc, stage, master, stageClone);
    ghost var t3 := fs.tree;
    assert CloneKept(t, t3, stageClone, svc) by {
      assert forall q :: Under(stageClone, q) && !Under(stageClone + [svc], q) ==> At(t3, q) == At(t2, q) == At(t, q);
    }
    if !ok {
      OthersKept(t, t3, stageClone, svc);
      return;
    }
    var values := ValuesPath(stageClone + [svc], svc);
    var filled := ReplaceInFile(fs, values, version);
    assert Under(stageClone + [svc], values);
    OthersKept(t, fs.tree, stageClone, svc);
    if fs.reliable {
      BaseStageApart(master, stage, svc);
      ghost var t1 :| SameSources(t, t1, base, over) && t2 == ValuesMerged(c, t1, base, over, svc);
      PromotionRecorded(c, t, t1, t3, fs.tree, base, over, stageClone, svc, version);
    }
  }

  /** Everything before the commit. */
  method PrepareCommit(fs: FileSystem, c: Codec, svc: string, stage: string, version: string, master: Path,
                       stageClone: Path)
    returns (ok: bool, snapshot: Snapshot)
    requires WellPlacedPromotion(fs.tree, master, stageClone, svc, stage)
    modifies fs
    ensures KeepsOthers(SnapshotOf(old(fs.tree), stageClone), snapshot, svc)
    ensures fs.reliable ==> (ok <==> Movable(old(fs.tree), BaseDir(master, svc), StageDir(master, stage, svc)))
    ensures fs.reliable && ok ==>
      Promotes(c, old(fs.tree), SnapshotOf(old(fs.tree), stageClone), snapshot, BaseDir(master, svc),
               StageDir(master, stage, svc), svc, version)
  {
    ghost var t := fs.tree;
    ghost var base, over := BaseDir(master, svc), StageDir(master, stage, svc);
    ClearAndMerge(fs, c, svc, stage, master, stageClone, base, over);
    ok := MoveAndFill(fs, c, svc, stage, version, master, stageClone, t, base, over);
    snapshot := SnapshotOf(fs.tree, stageClone);
  }

  /**
   `UpdateGitRepo` on the two clones. Failures to clear, to merge the values, to fill in the version and to stage are
   only logged by the source; they still leave every other path of the branch alone.
   */
  method UpdateGitRepo(fs: FileSystem, branch: StageBranch, c: Codec, svc: string, stage: string, version: string,
                       master: Path, stageClone: Path)
    returns (ok: bool, ghost next: Snapshot)
    requires WellPlacedPromotion(fs.tree, master, stageClone, svc, stage)
    requires branch.upstream != [] && branch.upstream[|branch.upstream| - 1] == SnapshotOf(fs.tree, stageClone)
    modifies fs, branch
    ensures branch.upstream == if ok then old(branch.upstream) + [next] else old(branch.upstream)
    ensures KeepsOthers(SnapshotOf(old(fs.tree), stageClone), next, svc)
    ensures fs.reliable && branch.reliable ==>
      (ok <==> Movable(old(fs.tree), BaseDir(master, svc), StageDir(master, stage, svc)))
    ensures fs.reliable && branch.reliable && ok ==>
      Promotes(c, old(fs.tree), SnapshotOf(old(fs.tree), stageClone), next, BaseDir(master, svc),
               StageDir(master, stage, svc), svc, version)
  {
    ghost var prev := branch.upstream[|branch.upstream| - 1];
    var snapshot;
    ok, snapshot := PrepareCommit(fs, c, svc, stage, version, master, stageClone);
    next := snapshot;
    if ok {
      ok, next := branch.CommitAndPush(snapshot);
    }
  }

  lemma ClearedAndMerged(c: Codec, t: Tree, t1: Tree, base: Path, over: Path, dest: Path, svc: string)
    requires RemovedAt(t, t1, dest) && Apart(base, dest) && Apart(over, dest) && Apart(base, over)
    ensures SameSources(t, t1, base, over)
    ensures Fresh(ValuesMerged(c, t1, base, over, svc), dest)
    ensures Movable(ValuesMerged(c, t1, base, over, svc), base, over) <==> Movable(t, base, over)
  {
    RemovalKeepsSources(t, t1, base, over, dest);
    SameSourcesMovable(t, t1, base, over);
    MovableAfterMerge(c, t1, base, over, svc);
    var v := ValuesPath(over, svc);
    assert Under(over, v);
    forall q | Under(dest, q) ensures q !in ValuesMerged(c, t1, base, over, svc) {
      assert At(t1, q) == None;
      if q == v { Comparable(over, dest, v); }
    }
  }
}
