/**
 Helm values trees and the law of `merge` on them (promotion-service/pkg/utils/githandler.go:346-373).

 A `Scalar` is every Go value that `merge` handles in none of its three cases: strings, numbers, booleans
 and maps whose keys are not all strings.
 */
module HelmValues {
  import opened Wrappers

  datatype Value =
    | Null
    | Scalar(repr: string)
    | List(items: seq<Value>)
    | Map(fields: map<string, Value>)

  type Fields = map<string, Value>

  /** What `merge(in1, in2)` returns. */
  function Merge(a: Value, b: Value): Value {
    match a
    case List(xs) => if b.List? then List(xs + b.items) else a
    case Map(f) =>
      if b.Map? then
        Map(map k | k in f.Keys + b.fields.Keys ::
          if k !in b.fields then f[k] else if k !in f then b.fields[k] else Merge(f[k], b.fields[k]))
      else a
    case Null => if b.Map? then b else a
    case Scalar(_) => a
  }

  function MergeFields(f: Fields, g: Fields): (r: Fields)
    ensures r.Keys == f.Keys + g.Keys
  {
    Merge(Map(f), Map(g)).fields
  }

  /** The value at the end of a chain of map keys. */
  function At(v: Value, path: seq<string>): Option<Value> {
    if path == [] then Some(v)
    else if v.Map? && path[0] in v.fields then At(v.fields[path[0]], path[1..])
    else None
  }

  // ---------- Who wins at a path ----------

  /** A scalar of the first tree survives at every path, whatever the second tree holds there. */
  lemma {:induction false} ScalarSurvives(a: Value, b: Value, path: seq<string>)
    requires At(a, path).Some? && At(a, path).value.Scalar?
    ensures At(Merge(a, b), path) == At(a, path)
    decreases path
  {
    if path != [] && b.Map? && path[0] in b.fields {
      ScalarSurvives(a.fields[path[0]], b.fields[path[0]], path[1..]);
    }
  }

  /**
   What one pair of values becomes, in words: lists are appended in order, null gives way to a map, all else stays.
   */
  predicate BecomesOf(va: Value, vb: Value, r: Value) {
    && (va.List? && vb.List? ==> r == List(va.items + vb.items))
    && (va.Null? && vb.Map? ==> r == vb)
    && (!(va.List? && vb.List?) && !(va.Null? && vb.Map?) && !(va.Map? && vb.Map?) ==> r == va)
    && (va.Map? && vb.Map? ==> r.Map? && r.fields.Keys == va.fields.Keys + vb.fields.Keys)
  }

  /** Where both trees have a value the two meet, at any depth; where only the first has one it stays. */
  lemma {:induction false} MergeMeetsAtEveryPath(a: Value, b: Value, path: seq<string>)
    requires At(a, path).Some?
    ensures At(b, path).Some? ==>
      At(Merge(a, b), path).Some? && BecomesOf(At(a, path).value, At(b, path).value, At(Merge(a, b), path).value)
    ensures At(b, path) == None ==> At(Merge(a, b), path) == At(a, path)
    decreases path
  {
    if path != [] && b.Map? && path[0] in b.fields {
      MergeMeetsAtEveryPath(a.fields[path[0]], b.fields[path[0]], path[1..]);
    }
  }

  /** The first tree leaves the way to `path` open: on no proper prefix does it hold a value `merge` keeps as is. */
  predicate Open(a: Value, path: seq<string>) {
    match a
    case Null => true
    case Map(f) => path != [] && (path[0] in f ==> Open(f[path[0]], path[1..]))
    case _ => false
  }

  /** A map or leaf that only the second tree has at `path` arrives unchanged, exactly when the way is open. */
  lemma {:induction false} BaseArrives(a: Value, b: Value, path: seq<string>)
    requires At(a, path) == None && At(b, path).Some?
    ensures Open(a, path) <==> At(Merge(a, b), path) == At(b, path)
    ensures !Open(a, path) ==> At(Merge(a, b), path) == None
    decreases path
  {
    if path != [] && a.Map? && path[0] in a.fields {
      BaseArrives(a.fields[path[0]], b.fields[path[0]], path[1..]);
    }
  }

  /** Nothing appears that neither tree has. */
  lemma {:induction false} NothingInvented(a: Value, b: Value, path: seq<string>)
    requires At(a, path) == None && At(b, path) == None
    ensures At(Merge(a, b), path) == None
    decreases path
  {
    if a.Map? && b.Map? && path[0] in a.fields && path[0] in b.fields {
      NothingInvented(a.fields[path[0]], b.fields[path[0]], path[1..]);
    }
  }

  // ---------- Absorption ----------

  /** `b` has nothing that `merge` would add to `a`. */
  predicate Absorbs(a: Value, b: Value) {
    match a
    case Scalar(_) => true
    case Null => !b.Map?
    case List(_) => b.List? ==> b.items == []
    case Map(f) => b.Map? ==> forall k :: k in b.fields ==> k in f && Absorbs(f[k], b.fields[k])
  }

  lemma {:induction false} AbsorbsIsFixpoint(a: Value, b: Value)
    ensures Merge(a, b) == a <==> Absorbs(a, b)
    decreases a
  {
    if a.Map? && b.Map? {
      var m := MergeFields(a.fields, b.fields);
      forall k | k in a.fields && k in b.fields
        ensures m[k] == a.fields[k] <==> Absorbs(a.fields[k], b.fields[k])
      {
        AbsorbsIsFixpoint(a.fields[k], b.fields[k]);
      }
      if m == a.fields {
        forall k | k in b.fields ensures k in a.fields && Absorbs(a.fields[k], b.fields[k]) {
          assert k in m;
        }
      }
    } else if a.List? && b.List? {
      assert |a.items + b.items| == |a.items| + |b.items|;
    }
  }

  /** Merging `b` a second time changes nothing: only non-empty lists grow again. */
  predicate Reapplies(a: Value, b: Value) {
    match a
    case Scalar(_) => true
    case Null => b.Map? ==> Absorbs(b, b)
    case List(_) => b.List? ==> b.items == []
    case Map(f) => b.Map? ==> forall k :: k in b.fields ==>
      if k in f then Reapplies(f[k], b.fields[k]) else Absorbs(b.fields[k], b.fields[k])
  }

  lemma {:induction false} MergeTwiceExactly(a: Value, b: Value)
    ensures Merge(Merge(a, b), b) == Merge(a, b) <==> Reapplies(a, b)
  {
    AbsorbsIsFixpoint(Merge(a, b), b);
    ReappliesAbsorbs(a, b);
  }

  lemma {:induction false} ReappliesAbsorbs(a: Value, b: Value)
    ensures Absorbs(Merge(a, b), b) <==> Reapplies(a, b)
    decreases a
  {
    if a.Map? && b.Map? {
      forall k | k in a.fields && k in b.fields
        ensures Absorbs(Merge(a.fields[k], b.fields[k]), b.fields[k]) <==> Reapplies(a.fields[k], b.fields[k])
      {
        ReappliesAbsorbs(a.fields[k], b.fields[k]);
      }
    }
  }

  /** No non-empty list anywhere under maps. */
  predicate ListFree(v: Value) {
    match v
    case List(xs) => xs == []
    case Map(f) => forall k :: k in f ==> ListFree(f[k])
    case _ => true
  }

  lemma {:induction false} ListFreeAbsorbsItself(v: Value)
    ensures ListFree(v) <==> Absorbs(v, v)
  {
    if v.Map? {
      forall k | k in v.fields ensures ListFree(v.fields[k]) <==> Absorbs(v.fields[k], v.fields[k]) {
        ListFreeAbsorbsItself(v.fields[k]);
      }
    }
  }

  /** Promoting the same list-free base twice is promoting it once. */
  lemma {:induction false} MergeTwice(a: Value, b: Value)
    requires ListFree(b)
    ensures Merge(Merge(a, b), b) == Merge(a, b)
  {
    ListFreeReapplies(a, b);
    MergeTwiceExactly(a, b);
  }

  lemma {:induction false} ListFreeReapplies(a: Value, b: Value)
    requires ListFree(b)
    ensures Reapplies(a, b)
    decreases a
  {
    if b.Map? {
      ListFreeAbsorbsItself(b);
      forall k | k in b.fields ensures Absorbs(b.fields[k], b.fields[k]) { ListFreeAbsorbsItself(b.fields[k]); }
      if a.Map? {
        forall k | k in a.fields && k in b.fields ensures Reapplies(a.fields[k], b.fields[k]) {
          ListFreeReapplies(a.fields[k], b.fields[k]);
        }
      }
    }
  }

  // ---------- Associativity ----------

  /** The kinds at one path, in all three trees, for which the order of merging does not matter. */
  predicate Associates(a: Value, b: Value, c: Value) {
    match a
    case Scalar(_) => true
    case Null => c.Map? ==> b.Map? || b.Null?
    case List(_) => c.List? && !b.List? ==> c.items == []
    case Map(f) =>
      c.Map? ==>
        match b
        case Null => true
        case Map(g) => forall k :: k in f && k in g && k in c.fields ==> Associates(f[k], g[k], c.fields[k])
        case _ => Absorbs(a, c)
  }

  /** Merging three trees is associative exactly when no path has one of the clashing kinds. */
  lemma {:induction false} MergeAssociative(a: Value, b: Value, c: Value)
    ensures Merge(Merge(a, b), c) == Merge(a, Merge(b, c)) <==> Associates(a, b, c)
    decreases a
  {
    match a
    case Scalar(_) =>
    case Null =>
    case List(xs) =>
      if b.List? && c.List? {
        assert (xs + b.items) + c.items == xs + (b.items + c.items);
      } else if c.List? {
        assert |xs + c.items| == |xs| + |c.items|;
      }
    case Map(f) =>
      if c.Map? && !b.Null? && !b.Map? {
        AbsorbsIsFixpoint(a, c);
      } else if c.Map? && b.Map? {
        MergeFieldsAssociative(f, b.fields, c.fields, a);
      }
  }

  lemma {:induction false} MergeFieldsAssociative(f: Fields, g: Fields, h: Fields, a: Value)
    requires a == Map(f)
    ensures MergeFields(MergeFields(f, g), h) == MergeFields(f, MergeFields(g, h)) <==>
            forall k :: k in f && k in g && k in h ==> Associates(f[k], g[k], h[k])
    decreases a, 0
  {
    var l, r := MergeFields(MergeFields(f, g), h), MergeFields(f, MergeFields(g, h));
    assert l.Keys == r.Keys;
    forall k | k in l
      ensures l[k] == r[k] <==> (k in f && k in g && k in h ==> Associates(f[k], g[k], h[k]))
    {
      if k in f && k in g && k in h { MergeAssociative(f[k], g[k], h[k]); }
    }
    if l == r {
      forall k | k in f && k in g && k in h ensures Associates(f[k], g[k], h[k]) {
        assert k in l;
      }
    }
  }

  // ---------- MergeValues: the top level ----------

  /** A top-level key shared by both files: `Manipulate` discards what `merge` returns and keeps the in-place effect. */
  function MergeTopKey(s: Value, b: Value): Value {
    if s.Map? && b.Map? then Merge(s, b) else s
  }

  function MergeTop(stage: Fields, base: Fields): (r: Fields)
    ensures r.Keys == stage.Keys + base.Keys
  {
    map k | k in stage.Keys + base.Keys ::
      if k !in base then stage[k] else if k !in stage then base[k] else MergeTopKey(stage[k], base[k])
  }

  /**
   The values of `MergeValues`, key by key: of two maps the merge, of any other two values the stage's, two lists and
   null against a map included, and a value that only one file has.
   */
  lemma TopValues(stage: Fields, base: Fields, k: string)
    ensures k in MergeTop(stage, base) <==> k in stage || k in base
    ensures k in stage && k in base && stage[k].Map? && base[k].Map? ==>
      MergeTop(stage, base)[k] == Merge(stage[k], base[k])
    ensures k in stage && k in base && !(stage[k].Map? && base[k].Map?) ==> MergeTop(stage, base)[k] == stage[k]
    ensures k in stage && k !in base ==> MergeTop(stage, base)[k] == stage[k]
    ensures k !in stage && k in base ==> MergeTop(stage, base)[k] == base[k]
  {}

  /** A top-level pair on which the discarded return value would have mattered. */
  predicate Discards(s: Value, b: Value) {
    (s.List? && b.List? && b.items != []) || (s.Null? && b.Map?)
  }

  /** `MergeValues` is the pure merge of stage over base exactly when no shared top-level key loses a result. */
  lemma {:induction false} TopIsMergeExactly(stage: Fields, base: Fields)
    ensures Map(MergeTop(stage, base)) == Merge(Map(stage), Map(base)) <==>
            !(exists k :: k in stage && k in base && Discards(stage[k], base[k]))
  {
    var l, r := MergeTop(stage, base), MergeFields(stage, base);
    forall k | k in stage && k in base ensures l[k] == r[k] <==> !Discards(stage[k], base[k]) {
      assert r[k] == Merge(stage[k], base[k]);
      if stage[k].List? && base[k].List? {
        assert r[k].items == stage[k].items + base[k].items;
        if base[k].items == [] { assert r[k].items == stage[k].items; }
      }
    }
    if l == r {
      assert forall k :: k in stage && k in base ==> k in l;
    } else {
      assert exists k :: k in l && l[k] != r[k];
    }
  }

  /** A stage scalar survives `MergeValues` at every path. */
  lemma StageScalarSurvives(stage: Fields, base: Fields, path: seq<string>)
    requires At(Map(stage), path).Some? && At(Map(stage), path).value.Scalar?
    ensures At(Map(MergeTop(stage, base)), path) == At(Map(stage), path)
  {
    var k := path[0];
    if k in base && stage[k].Map? && base[k].Map? {
      ScalarSurvives(stage[k], base[k], path[1..]);
    }
  }

  /**
   `MergeValues(orig, stage)`: `None` is what `getValues` yields for a file it cannot read or parse, or whose
   document is null; the result `None` is the error "No Values file specified".
   */
  function MergeValues(base: Option<Fields>, stage: Option<Fields>): Option<Fields> {
    match (base, stage)
    case (Some(b), Some(s)) => Some(MergeTop(s, b))
    case (Some(b), None) => Some(b)
    case (None, s) => s
  }

  /** It fails exactly when both files are missing, and one missing file acts as the empty map. */
  lemma {:induction false} MissingFileIsEmpty(base: Option<Fields>, stage: Option<Fields>)
    ensures MergeValues(base, stage) == None <==> base == None && stage == None
    ensures MergeValues(base, stage).Some? ==>
      MergeValues(base, stage).value ==
      MergeTop(if stage.Some? then stage.value else map[], if base.Some? then base.value else map[])
  {
    match (base, stage)
    case (Some(b), Some(s)) =>
    case (Some(b), None) => assert MergeTop(map[], b) == b;
    case (None, Some(s)) => assert MergeTop(s, map[]) == s;
    case (None, None) =>
  }
}
