// config/diff.go: the values overlay that turns one config into another, and what overlaying it restores.
// The trees are values here: the in-place edits of prune touch only trees that nothing else reads.
module ConfigDiff {
  import opened Common
  import opened JsonTree

  // ---- prune ----

  // nil from a value that was not nil: the key goes.
  predicate Vanishes(v: Json) {
    v != Null && Prune(v) == Null
  }

  function Prune(v: Json): Json
    decreases v, 1
  {
    match v
    case Lst(items) => Lst(seq(|items|, i requires 0 <= i < |items| => Prune(items[i])))
    case Obj(m) =>
      if Kept(v) == map[] then Null else Obj(Kept(v))
    case _ => v
  }

  // The fields that survive, pruned.
  function Kept(v: Json): map<string, Json>
    requires v.Obj?
    decreases v, 0
  {
    map k | k in v.fields && !(v.fields[k] != Null && Prune(v.fields[k]) == Null) :: Prune(v.fields[k])
  }

  /** prune is idempotent, so pruning a nested diff again is harmless. */
  lemma {:induction false} PruneIdempotent(v: Json)
    ensures Prune(Prune(v)) == Prune(v)
  {
    match v
    case Lst(items) =>
      forall i | 0 <= i < |items| ensures Prune(Prune(items[i])) == Prune(items[i]) { PruneIdempotent(items[i]); }
    case Obj(m) =>
      forall k | k in m ensures Prune(Prune(m[k])) == Prune(m[k]) { PruneIdempotent(m[k]); }
      if Kept(v) != map[] {
        assert Kept(Obj(Kept(v))) == Kept(v);
      }
    case _ =>
  }

  // An object that holds nothing but such objects.
  predicate Barren(v: Json) {
    v.Obj? && forall k :: k in v.fields ==> Barren(v.fields[k])
  }

  lemma {:induction false} VanishesIffBarren(v: Json)
    ensures Vanishes(v) <==> Barren(v)
  {
    if v.Obj? {
      forall k | k in v.fields ensures Vanishes(v.fields[k]) <==> Barren(v.fields[k]) {
        VanishesIffBarren(v.fields[k]);
      }
      if Barren(v) {
        assert Kept(v) == map[];
      } else {
        var k :| k in v.fields && !Barren(v.fields[k]);
        assert k in Kept(v);
      }
    }
  }

  method ComputePrune(v: Json) returns (r: Json)
    ensures r == Prune(v)
    decreases v, 1
  {
    match v
    case Lst(items) =>
      r := PruneItems(v);
    case Obj(m) =>
      if |m| == 0 {
        return Null;
      }
      var out := PruneFields(v);
      if |out| == 0 {
        return Null;
      }
      r := Obj(out);
    case _ =>
      r := v;
  }

  method PruneItems(v: Json) returns (r: Json)
    requires v.Lst?
    ensures r == Prune(v)
    decreases v, 0
  {
    var out := v.items;
    for i := 0 to |v.items|
      invariant |out| == |v.items|
      invariant forall j :: 0 <= j < i ==> out[j] == Prune(v.items[j])
      invariant forall j :: i <= j < |out| ==> out[j] == v.items[j]
    {
      var p := ComputePrune(v.items[i]);
      out := out[i := p];
    }
    r := Lst(out);
  }

  method PruneFields(v: Json) returns (out: map<string, Json>)
    requires v.Obj?
    ensures out == Kept(v)
    decreases v, 0
  {
    var todo := v.fields.Keys;
    out := v.fields;
    while todo != {}
      invariant todo <= v.fields.Keys
      invariant forall k :: k in todo ==> k in out && out[k] == v.fields[k]
      invariant forall k :: k !in todo ==> (k in out <==> k in Kept(v)) && (k in out ==> out[k] == Kept(v)[k])
      decreases |todo|
    {
      var k :| k in todo;
      todo := todo - {k};
      var p := ComputePrune(v.fields[k]);
      out := out[k := p];
      if p == Null && v.fields[k] != Null {
        out := out - {k};
      }
    }
  }

  // ---- diff ----

  // What the two loops put under key k, if anything.
  function Entry(from: Json, to: Json, k: string): Option<Json>
    requires from.Obj? && to.Obj?
    decreases from, 0
  {
    var f, t := from.fields, to.fields;
    if k in f then
      if k !in t then (if IsScalar(f[k]) then Some(ZeroOf(f[k])) else None)
      else if f[k] == t[k] then None
      else if f[k].Obj? then Some(Diff(f[k], t[k]))
      else Some(t[k])
    else if k in t then Some(t[k]) else None
  }

  function Entries(from: Json, to: Json): map<string, Json>
    requires from.Obj? && to.Obj?
    decreases from, 1
  {
    map k | k in from.fields.Keys + to.fields.Keys && Entry(from, to, k).Some? :: Entry(from, to, k).value
  }

  function Diff(from: Json, to: Json): Json
    decreases from, 2
  {
    if from == to then Null
    else if from.Obj? && to.Obj? then Prune(Obj(Entries(from, to)))
    else Prune(to)
  }

  // Diff replaces a nil difference by the empty overlay.
  function Overlay(from: Json, to: Json): Json {
    if Diff(from, to) == Null then EMPTY else Diff(from, to)
  }

  method ComputeDiff(from: Json, to: Json) returns (r: Json)
    ensures r == Diff(from, to)
    decreases from, 1
  {
    if from == to {
      return Null;
    }
    if !from.Obj? || !to.Obj? {
      r := ComputePrune(to);
      return;
    }
    var ret := Changed(from, to);
    var todo := to.fields.Keys;
    while todo != {}
      invariant todo <= to.fields.Keys
      invariant forall k :: k in ret <==> (k in from.fields || k !in todo) && k in Entries(from, to)
      invariant forall k :: k in ret ==> ret[k] == Entries(from, to)[k]
      decreases |todo|
    {
      var k :| k in todo;
      todo := todo - {k};
      if k !in from.fields {
        ret := ret[k := to.fields[k]];
      }
    }
    assert ret == Entries(from, to);
    r := ComputePrune(Obj(ret));
  }

  // The loop over the old keys.
  method Changed(from: Json, to: Json) returns (ret: map<string, Json>)
    requires from.Obj? && to.Obj?
    ensures forall k :: k in ret <==> k in from.fields && k in Entries(from, to)
    ensures forall k :: k in ret ==> ret[k] == Entries(from, to)[k]
    decreases from, 0
  {
    var f, t := from.fields, to.fields;
    ret := map[];
    var todo := f.Keys;
    while todo != {}
      invariant todo <= f.Keys
      invariant forall k :: k in ret <==> k in f && k !in todo && k in Entries(from, to)
      invariant forall k :: k in ret ==> ret[k] == Entries(from, to)[k]
      decreases |todo|
    {
      var k :| k in todo;
      todo := todo - {k};
      if k !in t {
        if IsScalar(f[k]) {
          ret := ret[k := ZeroOf(f[k])];
        }
      } else if f[k] != t[k] {
        var d := t[k];
        if f[k].Obj? {
          d := ComputeDiff(f[k], t[k]);
        }
        ret := ret[k := d];
      }
    }
  }

  // ---- overlaying values ----

  function MergedAt(a: Json, b: Json, k: string): Json
    requires a.Obj? && b.Obj? && (k in a.fields || k in b.fields)
    decreases b, 0
  {
    if k !in b.fields then a.fields[k]
    else if b.fields[k].Obj? && k in a.fields && a.fields[k].Obj? then Merge(a.fields[k], b.fields[k])
    else b.fields[k]
  }

  function Merge(a: Json, b: Json): (r: Json)
    requires a.Obj? && b.Obj?
    ensures r.Obj?
    decreases b, 1
  {
    Obj(map k | k in a.fields.Keys + b.fields.Keys :: MergedAt(a, b, k))
  }

  // What one turn of the loop stores under k.
  ghost predicate Stores(a: Json, b: Json, k: string, v: Json)
    requires a.Obj? && b.Obj? && k in b.fields
  {
    v == if b.fields[k].Obj? && k in a.fields && a.fields[k].Obj? then Merge(a.fields[k], b.fields[k]) else b.fields[k]
  }

  // The map when the keys in done were merged.
  function Merging(a: Json, b: Json, done: set<string>): map<string, Json>
    requires a.Obj? && b.Obj? && done <= b.fields.Keys
  {
    map k | k in a.fields.Keys + done :: if k in done then MergedAt(a, b, k) else a.fields[k]
  }

  lemma {:induction false} MergingMore(a: Json, b: Json, done: set<string>, k: string, v: Json)
    requires a.Obj? && b.Obj? && done <= b.fields.Keys && k in b.fields && Stores(a, b, k, v)
    ensures Merging(a, b, done + {k}) == Merging(a, b, done)[k := v]
  {
  }

  lemma {:induction false} MergingAll(a: Json, b: Json, done: set<string>)
    requires a.Obj? && b.Obj? && done == b.fields.Keys
    ensures Obj(Merging(a, b, done)) == Merge(a, b)
  {
  }

  method MergeMaps(a: Json, b: Json) returns (r: Json)
    requires a.Obj? && b.Obj?
    ensures r == Merge(a, b)
    decreases b, 1
  {
    var out, todo := a.fields, b.fields.Keys;
    ghost var done: set<string> := {};
    assert Merging(a, b, done) == a.fields;
    while todo != {}
      invariant done + todo == b.fields.Keys && done !! todo && out == Merging(a, b, done)
      decreases |todo|
    {
      var k :| k in todo;
      var v := MergeField(a, b, k);
      Visit(b.fields.Keys, done, todo, k);
      MergingMore(a, b, done, k, v);
      out := out[k := v];
      todo, done := todo - {k}, done + {k};
    }
    MergingAll(a, b, done);
    r := Obj(out);
  }

  method MergeField(a: Json, b: Json, k: string) returns (v: Json)
    requires a.Obj? && b.Obj? && k in b.fields
    ensures Stores(a, b, k, v)
    decreases b, 0
  {
    v := b.fields[k];
    if v.Obj? && k in a.fields && a.fields[k].Obj? {
      v := MergeMaps(a.fields[k], v);
    }
  }
}
