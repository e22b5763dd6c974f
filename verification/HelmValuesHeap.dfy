/**
 `merge`, `Manipulate` and `MergeValues` as the program runs them: Go maps are heap nodes, a nested map is a
 reference, and results share nodes with their inputs (promotion-service/pkg/utils/githandler.go:280-373).
 */
module HelmValuesHeap {
  import opened Wrappers
  import opened HelmValues

  /** A decoded YAML value; `GoMap` is a reference to a Go map, a slice is a value of its own. */
  datatype GoValue =
    | GoNil
    | GoScalar(repr: string)
    | GoList(items: seq<GoValue>)
    | GoMap(node: Node)

  class Node {
    var entries: map<string, GoValue>

    constructor (entries: map<string, GoValue>)
      ensures this.entries == entries
    {
      this.entries := entries;
    }
  }

  /**
   A value together with the node each of its maps lives in and a region that holds all nodes below.
   It mentions nodes and reads none of them.
   */
  datatype Layout =
    | LNull
    | LScalar(repr: string)
    | LList(items: seq<Layout>, below: set<Node>)
    | LMap(node: Node, kids: map<string, Layout>, below: set<Node>)

  ghost function Region(t: Layout): set<Node> {
    match t
    case LNull => {}
    case LScalar(_) => {}
    case LList(_, below) => below
    case LMap(n, _, below) => {n} + below
  }

  ghost function Go(t: Layout): GoValue {
    match t
    case LNull => GoNil
    case LScalar(r) => GoScalar(r)
    case LList(ts, _) => GoList(seq(|ts|, i requires 0 <= i < |ts| => Go(ts[i])))
    case LMap(n, _, _) => GoMap(n)
  }

  /** The YAML tree a layout stands for. */
  ghost function Abs(t: Layout): Value {
    match t
    case LNull => Null
    case LScalar(r) => Scalar(r)
    case LList(ts, _) => List(seq(|ts|, i requires 0 <= i < |ts| => Abs(ts[i])))
    case LMap(_, kids, _) => Map(map k | k in kids :: Abs(kids[k]))
  }

  ghost predicate KidsApart(n: Node, kids: map<string, Layout>, below: set<Node>) {
    && n !in below
    && (forall k :: k in kids ==> Region(kids[k]) <= below)
    && (forall k, l :: k in kids && l in kids && k != l ==> Region(kids[k]) !! Region(kids[l]))
  }

  ghost predicate ItemsApart(ts: seq<Layout>, below: set<Node>) {
    && (forall i :: 0 <= i < |ts| ==> Region(ts[i]) <= below)
    && (forall i, j :: 0 <= i < j < |ts| ==> Region(ts[i]) !! Region(ts[j]))
  }

  /** No node is used twice. */
  ghost predicate TreeShaped(t: Layout) {
    match t
    case LNull => true
    case LScalar(_) => true
    case LList(ts, below) => ItemsApart(ts, below) && forall i :: 0 <= i < |ts| ==> TreeShaped(ts[i])
    case LMap(n, kids, below) => KidsApart(n, kids, below) && forall k :: k in kids ==> TreeShaped(kids[k])
  }

  /** The heap holds the layout: the entries of every node refer to the layouts of its children. */
  ghost predicate Holds(t: Layout)
    reads Region(t)
  {
    match t
    case LNull => true
    case LScalar(_) => true
    case LList(ts, below) => forall i :: 0 <= i < |ts| ==> Region(ts[i]) <= below && Holds(ts[i])
    case LMap(n, kids, below) =>
      && n.entries == (map k | k in kids :: Go(kids[k]))
      && forall k :: k in kids ==> Region(kids[k]) <= below && Holds(kids[k])
  }

  /** The layout `merge` leaves: nodes of the first tree updated in place, subtrees of the second one shared. */
  ghost function MergeLayout(s: Layout, t: Layout): (r: Layout)
    ensures Region(r) <= Region(s) + Region(t)
  {
    match s
    case LList(xs, below) => if t.LList? then LList(xs + t.items, below + t.below) else s
    case LMap(n, kids, below) =>
      if t.LMap? then
        LMap(n, map k | k in kids.Keys + t.kids.Keys ::
          if k !in t.kids then kids[k] else if k !in kids then t.kids[k] else MergeLayout(kids[k], t.kids[k]),
          below + t.below)
      else s
    case LNull => if t.LMap? then t else s
    case LScalar(_) => s
  }

  lemma {:induction false} MergeLayoutAbs(s: Layout, t: Layout)
    ensures Abs(MergeLayout(s, t)) == Merge(Abs(s), Abs(t))
    decreases s
  {
    if s.LMap? && t.LMap? {
      forall k | k in s.kids && k in t.kids
        ensures Abs(MergeLayout(s.kids[k], t.kids[k])) == Merge(Abs(s.kids[k]), Abs(t.kids[k]))
      {
        MergeLayoutAbs(s.kids[k], t.kids[k]);
      }
      assert Abs(MergeLayout(s, t)).fields == Merge(Abs(s), Abs(t)).fields;
    } else if s.LList? && t.LList? {
      assert Abs(MergeLayout(s, t)).items == Merge(Abs(s), Abs(t)).items;
    }
  }

  ghost function KidRegion(kids: map<string, Layout>, k: string): set<Node> {
    if k in kids then Region(kids[k]) else {}
  }

  /** Sharing never makes a node appear twice in the result. */
  lemma {:induction false} MergeLayoutTreeShaped(s: Layout, t: Layout)
    requires TreeShaped(s) && TreeShaped(t) && Region(s) !! Region(t)
    ensures TreeShaped(MergeLayout(s, t))
    decreases s
  {
    var m := MergeLayout(s, t);
    if s.LMap? && t.LMap? {
      forall k | k in m.kids
        ensures TreeShaped(m.kids[k])
        ensures Region(m.kids[k]) <= KidRegion(s.kids, k) + KidRegion(t.kids, k)
      {
        if k in s.kids && k in t.kids { MergeLayoutTreeShaped(s.kids[k], t.kids[k]); }
      }
    } else if s.LList? && t.LList? {
      forall i, j | 0 <= i < j < |m.items| ensures Region(m.items[i]) !! Region(m.items[j]) {
        var n := |s.items|;
        if n <= i { assert m.items[i] == t.items[i - n] && m.items[j] == t.items[j - n]; }
      }
    }
  }

  /**
   `merge(in1, in2)`. On disjoint trees it returns the pure merge for every order in which Go visits the keys of
   `in2`; only nodes of `in1` are written, so every node of `in2` keeps its entries.
   */
  method Merge'(in1: GoValue, in2: GoValue, ghost s: Layout, ghost t: Layout) returns (r: GoValue)
    requires in1 == Go(s) && in2 == Go(t)
    requires TreeShaped(s) && TreeShaped(t) && Region(s) !! Region(t)
    requires Holds(s) && Holds(t)
    modifies Region(s)
    ensures r == Go(MergeLayout(s, t)) && Holds(MergeLayout(s, t)) && Holds(t)
    ensures Abs(MergeLayout(s, t)) == Merge(Abs(s), Abs(t))
    ensures !(s.LMap? && t.LMap?) ==> Holds(s)
    decreases s, 3
  {
    MergeLayoutAbs(s, t);
    match in1
    case GoList(xs) =>
      if in2.GoList? {
        return GoList(xs + in2.items);
      }
      return in1;
    case GoMap(n) =>
      if in2.GoMap? {
        MergeEntries(n, in2.node, s, t);
      }
      return in1;
    case GoNil =>
      if in2.GoMap? {
        return in2;
      }
      return in1;
    case GoScalar(_) =>
      return in1;
  }

  /** The children of `in1` once the keys in `done` have been visited. */
  ghost function Visited(s: map<string, Layout>, t: map<string, Layout>, done: set<string>): map<string, Layout>
    requires done <= t.Keys
  {
    map k | k in s.Keys + done ::
      if k !in done then s[k] else if k !in s then t[k] else MergeLayout(s[k], t[k])
  }

  /** Two disjoint maps of children. */
  ghost predicate Disjoint(s: map<string, Layout>, t: map<string, Layout>) {
    && (forall k, l :: k in s && l in s && k != l ==> Region(s[k]) !! Region(s[l]))
    && (forall k, l :: k in t && l in t && k != l ==> Region(t[k]) !! Region(t[l]))
    && (forall k, l :: k in s && l in t ==> Region(s[k]) !! Region(t[l]))
  }

  lemma VisitOne(s: map<string, Layout>, t: map<string, Layout>, done: set<string>, k: string)
    requires Disjoint(s, t) && done <= t.Keys && k in t && k !in done
    ensures Visited(s, t, done + {k}) ==
            Visited(s, t, done)[k := if k in Visited(s, t, done) then MergeLayout(s[k], t[k]) else t[k]]
  {}

  lemma VisitedApart(s: map<string, Layout>, t: map<string, Layout>, done: set<string>, k: string)
    requires Disjoint(s, t) && done <= t.Keys && k !in done
    ensures k in Visited(s, t, done) <==> k in s
    ensures k in s ==> Visited(s, t, done)[k] == s[k]
    ensures Apart(Visited(s, t, done), k, KidRegion(s, k))
  {
    forall l | l in Visited(s, t, done) && l != k ensures Region(Visited(s, t, done)[l]) !! KidRegion(s, k) {
      assert Region(Visited(s, t, done)[l]) <= KidRegion(s, l) + KidRegion(t, l);
    }
  }

  /** `n.entries[k] = v`. */
  method SetEntry(n: Node, k: string, v: GoValue, ghost kids: map<string, Layout>, ghost t: Layout,
                  ghost below: set<Node>)
    requires n !in below && n.entries == (map l | l in kids :: Go(kids[l]))
    requires forall l :: l in kids && l != k ==> Region(kids[l]) <= below && Holds(kids[l])
    requires v == Go(t) && Region(t) <= below && Holds(t)
    modifies n
    ensures Holds(LMap(n, kids[k := t], below))
  {
    ghost var after := kids[k := t];
    n.entries := n.entries[k := v];
    assert n.entries == (map l | l in after :: Go(after[l]));
    forall l | l in after ensures Region(after[l]) <= below && Holds(after[l]) {
      assert l != k ==> after[l] == kids[l];
    }
  }

  ghost predicate Apart(kids: map<string, Layout>, k: string, region: set<Node>) {
    forall l :: l in kids && l != k ==> Region(kids[l]) !! region
  }

  /** One turn of the loop: the entry of `n` at `k` becomes its merge with `v2`. */
  method MergeKey(n: Node, k: string, v2: GoValue, ghost kids: map<string, Layout>, ghost t: Layout,
                  ghost below: set<Node>, ghost parent: Layout)
    requires k in kids ==> parent.LMap? && k in parent.kids && parent.kids[k] == kids[k]
    requires n !in below && Holds(LMap(n, kids, below))
    requires k in kids ==> TreeShaped(kids[k]) && Region(kids[k]) !! Region(t)
    requires Apart(kids, k, KidRegion(kids, k))
    requires TreeShaped(t) && Region(t) <= below && Holds(t) && v2 == Go(t)
    modifies n, KidRegion(kids, k)
    ensures Holds(LMap(n, kids[k := if k in kids then MergeLayout(kids[k], t) else t], below))
    decreases parent, 1
  {
    var v := v2;
    if k in n.entries {
      v := Merge'(n.entries[k], v2, kids[k], t);
      SetEntry(n, k, v, kids, MergeLayout(kids[k], t), below);
    } else {
      SetEntry(n, k, v, kids, t, below);
    }
  }

  /** `for k, v2 := range in2`, in any order. */
  method MergeEntries(n1: Node, n2: Node, ghost s: Layout, ghost t: Layout)
    requires s.LMap? && t.LMap? && s.node == n1 && t.node == n2
    requires TreeShaped(s) && TreeShaped(t) && Region(s) !! Region(t)
    requires Holds(s) && Holds(t)
    modifies Region(s)
    ensures Holds(MergeLayout(s, t)) && Holds(t)
    decreases s, 2
  {
    ghost var region := s.below + t.below;
    var todo := n2.entries.Keys;
    ghost var done: set<string> := {};
    assert Visited(s.kids, t.kids, done) == s.kids;
    assert Disjoint(s.kids, t.kids);
    while todo != {}
      invariant todo == t.kids.Keys - done && done <= t.kids.Keys
      invariant Holds(LMap(n1, Visited(s.kids, t.kids, done), region))
      invariant Holds(t)
      decreases todo
    {
      var k :| k in todo;
      VisitOne(s.kids, t.kids, done, k);
      VisitedApart(s.kids, t.kids, done, k);
      MergeKey(n1, k, n2.entries[k], Visited(s.kids, t.kids, done), t.kids[k], region, s);
      todo, done := todo - {k}, done + {k};
    }
    assert done == t.kids.Keys;
    assert Visited(s.kids, t.kids, done) == MergeLayout(s, t).kids;
  }

  // ---------- Manipulate and MergeValues ----------

  /** What one shared top-level key ends up holding. */
  ghost function TopLayout(s: Layout, b: Layout): (r: Layout)
    ensures Region(r) <= Region(s) + Region(b)
  {
    if s.LMap? && b.LMap? then MergeLayout(s, b) else s
  }

  /** The children of the base map once the stage keys in `done` have been written into it. */
  ghost function Manipulated(b: map<string, Layout>, s: map<string, Layout>, done: set<string>): map<string, Layout>
    requires done <= s.Keys
  {
    map k | k in b.Keys + done ::
      if k !in done then b[k] else if k !in b then s[k] else TopLayout(s[k], b[k])
  }

  ghost function ManipulatedLayout(b: Layout, s: Layout): Layout
    requires b.LMap? && s.LMap?
  {
    LMap(b.node, Manipulated(b.kids, s.kids, s.kids.Keys), b.below + s.below)
  }

  lemma {:induction false} ManipulatedAbs(b: Layout, s: Layout)
    requires b.LMap? && s.LMap?
    ensures Abs(ManipulatedLayout(b, s)) == Map(MergeTop(Abs(s).fields, Abs(b).fields))
  {
    forall k | k in s.kids && k in b.kids
      ensures Abs(TopLayout(s.kids[k], b.kids[k])) == MergeTopKey(Abs(s.kids[k]), Abs(b.kids[k]))
    {
      MergeLayoutAbs(s.kids[k], b.kids[k]);
    }
    assert Abs(ManipulatedLayout(b, s)).fields == MergeTop(Abs(s).fields, Abs(b).fields);
  }

  lemma ManipulateOne(b: map<string, Layout>, s: map<string, Layout>, done: set<string>, k: string)
    requires Disjoint(s, b) && done <= s.Keys && k in s && k !in done
    ensures Manipulated(b, s, done + {k}) ==
            Manipulated(b, s, done)[k := TopLayout(s[k], if k in b then b[k] else LNull)]
  {}

  lemma ManipulatedApart(b: map<string, Layout>, s: map<string, Layout>, done: set<string>, k: string)
    requires Disjoint(s, b) && done <= s.Keys && k in s && k !in done
    ensures k in Manipulated(b, s, done) <==> k in b
    ensures k in b ==> Manipulated(b, s, done)[k] == b[k]
    ensures Apart(Manipulated(b, s, done), k, Region(s[k]))
  {
    forall l | l in Manipulated(b, s, done) && l != k ensures Region(Manipulated(b, s, done)[l]) !! Region(s[k]) {
      assert Region(Manipulated(b, s, done)[l]) <= KidRegion(s, l) + KidRegion(b, l);
    }
  }

  /** The values of the stage that are still to come. */
  ghost predicate HoldsAll(kids: map<string, Layout>, keys: set<string>)
    requires keys <= kids.Keys
    reads set k, n | k in keys && n in Region(kids[k]) :: n
  {
    forall k :: k in keys ==> Holds(kids[k])
  }

  /** `merge(v, ch.Values[k]); ch.Values[k] = v`. */
  method ManipulateKey(base: Node, k: string, v: GoValue, ghost t: Layout, ghost kids: map<string, Layout>,
                       ghost below: set<Node>)
    requires base !in below && Holds(LMap(base, kids, below))
    requires TreeShaped(t) && Region(t) <= below && Holds(t) && v == Go(t)
    requires k in kids ==> TreeShaped(kids[k]) && Region(t) !! Region(kids[k])
    requires Apart(kids, k, Region(t))
    modifies base, Region(t)
    ensures Holds(LMap(base, kids[k := TopLayout(t, if k in kids then kids[k] else LNull)], below))
  {
    if k in base.entries {
      var _ := Merge'(v, base.entries[k], t, kids[k]);
      SetEntry(base, k, v, kids, TopLayout(t, kids[k]), below);
    } else {
      var _ := Merge'(v, GoNil, t, LNull);
      SetEntry(base, k, v, kids, TopLayout(t, LNull), below);
    }
  }

  /** Writing under one stage key touches neither the stage map nor the values of other keys. */
  lemma StageApart(s: Layout, b: Layout, k: string)
    requires s.LMap? && b.LMap? && TreeShaped(s) && TreeShaped(b) && Region(s) !! Region(b) && k in s.kids
    ensures forall l :: l in s.kids && l != k ==> Region(s.kids[l]) !! {b.node} + Region(s.kids[k])
    ensures s.node !in {b.node} + Region(s.kids[k]) && b.node !in b.below + s.below
    ensures TreeShaped(s.kids[k]) && Region(s.kids[k]) <= s.below && Disjoint(s.kids, b.kids)
    ensures k in b.kids ==> TreeShaped(b.kids[k]) && Region(s.kids[k]) !! Region(b.kids[k])
  {}

  /** One turn of the loop of `Manipulate`. */
  method ManipulateNext(stage: Node, base: Node, k: string, ghost s: Layout, ghost b: Layout, ghost done: set<string>)
    requires s.LMap? && b.LMap? && s.node == stage && b.node == base
    requires TreeShaped(s) && TreeShaped(b) && Region(s) !! Region(b)
    requires done <= s.kids.Keys && k in s.kids && k !in done
    requires k in stage.entries && stage.entries[k] == Go(s.kids[k]) && HoldsAll(s.kids, s.kids.Keys - done)
    requires Holds(LMap(base, Manipulated(b.kids, s.kids, done), b.below + s.below))
    modifies base, s.below
    ensures stage.entries == old(stage.entries) && HoldsAll(s.kids, s.kids.Keys - (done + {k}))
    ensures Holds(LMap(base, Manipulated(b.kids, s.kids, done + {k}), b.below + s.below))
  {
    StageApart(s, b, k);
    ManipulateOne(b.kids, s.kids, done, k);
    ManipulatedApart(b.kids, s.kids, done, k);
    ManipulateKey(base, k, stage.entries[k], s.kids[k], Manipulated(b.kids, s.kids, done), b.below + s.below);
    forall l | l in s.kids && l !in done && l != k ensures Holds(s.kids[l]) {
      assert old(Holds(s.kids[l])) && Region(s.kids[l]) !! {base} + Region(s.kids[k]);
    }
  }

  /**
   `Manipulate`: every stage value is merged with the base value of its key, the result of `merge` is dropped, and
   the stage value is stored in the base map. The stage map itself is not written, the maps below it are.
   */
  method Manipulate(stage: Node, base: Node, ghost s: Layout, ghost b: Layout)
    requires s.LMap? && b.LMap? && s.node == stage && b.node == base
    requires TreeShaped(s) && TreeShaped(b) && Region(s) !! Region(b)
    requires Holds(s) && Holds(b)
    modifies base, s.below
    ensures Holds(ManipulatedLayout(b, s))
  {
    var todo := stage.entries.Keys;
    ghost var done: set<string> := {};
    assert Manipulated(b.kids, s.kids, done) == b.kids;
    while todo != {}
      invariant todo == s.kids.Keys - done && done <= s.kids.Keys
      invariant stage.entries == (map k | k in s.kids :: Go(s.kids[k])) && HoldsAll(s.kids, s.kids.Keys - done)
      invariant Holds(LMap(base, Manipulated(b.kids, s.kids, done), b.below + s.below))
      decreases todo
    {
      var k :| k in todo;
      ManipulateNext(stage, base, k, s, b, done);
      todo, done := todo - {k}, done + {k};
    }
    assert done == s.kids.Keys;
  }

  ghost predicate HoldsFile(f: Option<Node>, t: Layout)
    reads Region(t)
  {
    f.Some? ==> t.LMap? && f.value == t.node && TreeShaped(t) && Holds(t)
  }

  ghost function FileFields(f: Option<Node>, t: Layout): Option<Fields>
    requires f.Some? ==> t.LMap?
  {
    if f.Some? then Some(Abs(t).fields) else None
  }

  /** `MergeValues` on two decoded files; the ghost result is the layout of what it returns. */
  method MergeValues'(base: Option<Node>, stage: Option<Node>, ghost b: Layout, ghost s: Layout)
    returns (r: Option<Node>, ghost l: Layout)
    requires HoldsFile(base, b) && HoldsFile(stage, s) && Region(b) !! Region(s)
    modifies Region(b), Region(s)
    ensures r.Some? ==> l.LMap? && r.value == l.node && Holds(l)
    ensures FileFields(r, l) == MergeValues(FileFields(base, b), FileFields(stage, s))
    // At a key of both files the stage's value is kept, unless both are maps.
    ensures base.Some? && stage.Some? ==>
      r.Some? && forall k :: k in Abs(s).fields && k in Abs(b).fields ==>
        && k in Abs(l).fields
        && Abs(l).fields[k] ==
           if Abs(s).fields[k].Map? && Abs(b).fields[k].Map? then Merge(Abs(s).fields[k], Abs(b).fields[k])
           else Abs(s).fields[k]
  {
    match (base, stage)
    case (Some(bn), Some(sn)) =>
      Manipulate(sn, bn, s, b);
      ManipulatedAbs(b, s);
      r, l := base, ManipulatedLayout(b, s);
    case (Some(_), None) =>
      r, l := base, b;
    case (None, _) =>
      r, l := stage, s;
  }
}
