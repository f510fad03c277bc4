// What overlaying a diff restores: exactly when Merge(from, Overlay(from, to)) means the same as to.
module OverlayLaw {
  import opened Common
  import opened JsonTree
  import opened ConfigDiff

  // ---- when two trees mean the same ----

  // Up to fields that are absent or zero. In a list, which keeps its length, an object of nothing is a null.
  function Norm(v: Json): Json {
    match v
    case Obj(m) => Obj(map k | k in m && !IsBlank(Norm(m[k])) :: Norm(m[k]))
    case Lst(items) =>
      Lst(seq(|items|, i requires 0 <= i < |items| => if Barren(items[i]) then Null else Norm(items[i])))
    case _ => v
  }

  predicate IsBlank(v: Json) {
    IsZero(v) || v == EMPTY
  }

  predicate SameMeaning(a: Json, b: Json) {
    Norm(a) == Norm(b)
  }

  // The normal form of one field; None for a field that might as well be absent.
  function NormAt(m: map<string, Json>, k: string): Option<Json> {
    if k in m && !IsBlank(Norm(m[k])) then Some(Norm(m[k])) else None
  }

  lemma {:induction false} SameByField(a: map<string, Json>, b: map<string, Json>)
    ensures SameMeaning(Obj(a), Obj(b)) <==> forall k :: NormAt(a, k) == NormAt(b, k)
  {
    var na, nb := Norm(Obj(a)).fields, Norm(Obj(b)).fields;
    forall k ensures (k in na <==> NormAt(a, k).Some?) && (k in na ==> Some(na[k]) == NormAt(a, k)) {}
    forall k ensures (k in nb <==> NormAt(b, k).Some?) && (k in nb ==> Some(nb[k]) == NormAt(b, k)) {}
    if na == nb {
      forall k ensures NormAt(a, k) == NormAt(b, k) { assert k in na <==> k in nb; }
    }
    if forall k :: NormAt(a, k) == NormAt(b, k) {
      assert na.Keys == nb.Keys;
      assert na == nb;
    }
  }

  // A value that means nothing: zero scalars and objects of such values.
  predicate Hollow(v: Json) {
    IsZero(v) || (v.Obj? && forall k :: k in v.fields ==> Hollow(v.fields[k]))
  }

  lemma {:induction false} BlankIffHollow(v: Json)
    ensures IsBlank(Norm(v)) <==> Hollow(v)
  {
    if v.Obj? {
      forall k | k in v.fields ensures IsBlank(Norm(v.fields[k])) <==> Hollow(v.fields[k]) {
        BlankIffHollow(v.fields[k]);
      }
      var n := Norm(v).fields;
      if !Hollow(v) {
        var k :| k in v.fields && !Hollow(v.fields[k]);
        assert k in n;
      } else {
        assert n == map[];
      }
    }
  }

  // What pruning leaves is never an object of nothing.
  lemma {:induction false} PrunedIsNotBarren(v: Json)
    ensures !Barren(Prune(v))
  {
    PruneIdempotent(v);
    VanishesIffBarren(Prune(v));
  }

  /** Pruning keeps the meaning of what it keeps, and removes only what means nothing. */
  lemma {:induction false} PruneKeepsMeaning(v: Json)
    ensures !Barren(v) ==> SameMeaning(Prune(v), v)
    ensures Barren(v) ==> Norm(v) == EMPTY
  {
    VanishesIffBarren(v);
    match v
    case Lst(items) =>
      forall i | 0 <= i < |items|
        ensures Norm(Prune(v)).items[i] == Norm(v).items[i]
      {
        PruneKeepsMeaning(items[i]);
        VanishesIffBarren(items[i]);
        PrunedIsNotBarren(items[i]);
      }
    case Obj(m) =>
      forall k | k in m
        ensures Barren(m[k]) ==> NormAt(m, k) == None
        ensures !Barren(m[k]) ==> Norm(Prune(m[k])) == Norm(m[k])
        ensures k in Kept(v) <==> !Barren(m[k])
      {
        PruneKeepsMeaning(m[k]);
        VanishesIffBarren(m[k]);
      }
      forall k ensures NormAt(Kept(v), k) == NormAt(m, k) {}
      SameByField(Kept(v), m);
      if Barren(v) {
        assert Norm(v).fields == map[];
      }
    case _ =>
  }

  /** Pruning, said without it: a list keeps its length, its barren items become null and the others are pruned; an
      object loses exactly its barren fields, and becomes null if it has no others; anything else stays. */
  lemma {:induction false} PruneShape(v: Json)
    ensures v.Lst? ==>
              && Prune(v).Lst? && |Prune(v).items| == |v.items|
              && forall i :: 0 <= i < |v.items| ==>
                   && (Prune(v).items[i] == Null <==> v.items[i] == Null || Barren(v.items[i]))
                   && (!Barren(v.items[i]) ==> SameMeaning(Prune(v).items[i], v.items[i]))
    ensures v.Obj? ==>
              if Barren(v) then Prune(v) == Null
              else
                && Prune(v).Obj?
                && (forall k :: k in Prune(v).fields <==> k in v.fields && !Barren(v.fields[k]))
                && forall k :: k in Prune(v).fields ==>
                     && (Prune(v).fields[k] == Null <==> v.fields[k] == Null)
                     && SameMeaning(Prune(v).fields[k], v.fields[k])
    ensures !v.Lst? && !v.Obj? ==> Prune(v) == v
  {
    VanishesIffBarren(v);
    match v
    case Lst(items) =>
      forall i | 0 <= i < |items|
        ensures Prune(v).items[i] == Null <==> items[i] == Null || Barren(items[i])
        ensures !Barren(items[i]) ==> SameMeaning(Prune(v).items[i], items[i])
      {
        VanishesIffBarren(items[i]);
        PruneKeepsMeaning(items[i]);
      }
    case Obj(m) =>
      forall k | k in m
        ensures Prune(m[k]) == Null <==> m[k] == Null || Barren(m[k])
        ensures !Barren(m[k]) ==> SameMeaning(Prune(m[k]), m[k])
      {
        VanishesIffBarren(m[k]);
        PruneKeepsMeaning(m[k]);
      }
    case _ =>
  }

  // ---- when a difference leaves no trace ----

  // from and to are different objects, yet their diff is nil.
  predicate Silent(from: Json, to: Json)
    requires from.Obj? && to.Obj?
  {
    && (forall k :: k in from.fields && k !in to.fields ==> !IsScalar(from.fields[k]))
    && (forall k :: k in from.fields && k in to.fields && from.fields[k] != to.fields[k] ==>
          !from.fields[k].Obj? && Barren(to.fields[k]))
    && (forall k :: k in to.fields && k !in from.fields ==> Barren(to.fields[k]))
  }

  // Whether key k survives into the diff, and as what.
  predicate Leaves(from: Json, to: Json, k: string)
    requires from.Obj? && to.Obj?
  {
    Entry(from, to, k).Some? && !Barren(Entry(from, to, k).value)
  }

  lemma {:induction false} KeptEntries(from: Json, to: Json, k: string)
    requires from.Obj? && to.Obj?
    ensures var kept := Kept(Obj(Entries(from, to)));
            && (k in kept <==> Leaves(from, to, k))
            && (k in kept ==> kept[k] == Prune(Entry(from, to, k).value))
  {
    var e := Entry(from, to, k);
    if e.Some? {
      assert k in from.fields.Keys + to.fields.Keys;
      VanishesIffBarren(e.value);
    }
  }

  lemma {:induction false} DiffIsPruned(from: Json, to: Json)
    ensures !Barren(Diff(from, to))
    ensures Prune(Diff(from, to)) == Diff(from, to)
  {
    if from != to {
      var v := if from.Obj? && to.Obj? then Obj(Entries(from, to)) else to;
      PruneIdempotent(v);
      VanishesIffBarren(Prune(v));
    }
  }

  lemma {:induction false} LeavesMeans(from: Json, to: Json, k: string)
    requires from.Obj? && to.Obj?
    ensures var f, t := from.fields, to.fields;
            Leaves(from, to, k) <==>
            || (k in f && k !in t && IsScalar(f[k]))
            || (k in f && k in t && f[k] != t[k] && (f[k].Obj? || !Barren(t[k])))
            || (k !in f && k in t && !Barren(t[k]))
  {
    if k in from.fields && k in to.fields { DiffIsPruned(from.fields[k], to.fields[k]); }
  }

  /** Between two different objects, the diff is nil exactly when every change is one that leaves no trace. */
  lemma {:induction false} DiffNilIff(from: Json, to: Json)
    requires from.Obj? && to.Obj? && from != to
    ensures Diff(from, to) == Null <==> Silent(from, to)
    ensures Diff(from, to) != Null ==> Diff(from, to).Obj? && Diff(from, to).fields == Kept(Obj(Entries(from, to)))
  {
    var kept := Kept(Obj(Entries(from, to)));
    forall k ensures k in kept <==> Leaves(from, to, k) { KeptEntries(from, to, k); }
    if Silent(from, to) {
      forall k ensures k !in kept { LeavesMeans(from, to, k); }
      assert kept == map[];
    } else {
      var k := Loud(from, to);
      assert k in kept;
    }
  }

  lemma {:induction false} Loud(from: Json, to: Json) returns (k: string)
    requires from.Obj? && to.Obj? && !Silent(from, to)
    ensures Leaves(from, to, k)
  {
    var f, t := from.fields, to.fields;
    if k' :| k' in f && k' !in t && IsScalar(f[k']) {
      k := k';
    } else if k' :| k' in f && k' in t && f[k'] != t[k'] && (f[k'].Obj? || !Barren(t[k'])) {
      k := k';
    } else {
      k :| k in t && k !in f && !Barren(t[k]);
    }
    LeavesMeans(from, to, k);
  }

  // ---- the exact condition ----

  // What a caller can check of one key before the call.
  predicate FaithfulAt(from: Json, to: Json, k: string)
    requires from.Obj? && to.Obj?
    decreases from, 0
  {
    var f, t := from.fields, to.fields;
    if k in f && k !in t then IsScalar(f[k]) || Hollow(f[k])
    else if k in f && k in t && f[k] != t[k] then
      if f[k].Obj? then (t[k].Obj? ==> !Silent(f[k], t[k]) && Faithful(f[k], t[k]))
      else Barren(t[k]) ==> IsZero(f[k])
    else true
  }

  predicate Faithful(from: Json, to: Json)
    requires from.Obj? && to.Obj?
    decreases from, 1
  {
    forall k :: k in from.fields ==> FaithfulAt(from, to, k)
  }

  // The overlaid tree under one key.
  lemma {:induction false} OverlaidAt(from: Json, to: Json, k: string)
    requires from.Obj? && to.Obj? && from != to
    ensures var f, t, merged := from.fields, to.fields, Merge(from, Overlay(from, to)).fields;
            if !Leaves(from, to, k) then
              (k in merged <==> k in f) && (k in f ==> merged[k] == f[k])
            else
              k in merged &&
              merged[k] == (var d := Prune(Entry(from, to, k).value);
                            if d.Obj? && k in f && f[k].Obj? then Merge(f[k], d) else d)
  {
    DiffNilIff(from, to);
    KeptEntries(from, to, k);
    var o := Overlay(from, to);
    assert k in o.fields <==> Leaves(from, to, k) by {
      if Diff(from, to) == Null {
        LeavesMeans(from, to, k);
      }
    }
    assert k in from.fields || k in o.fields ==> Merge(from, o).fields[k] == MergedAt(from, o, k);
  }

  /** Overlaying the diff on from means to, exactly when every key passes FaithfulAt. */
  lemma {:induction false} OverlayRestoresIff(from: Json, to: Json)
    requires from.Obj? && to.Obj?
    ensures SameMeaning(Merge(from, Overlay(from, to)), to) <==> Faithful(from, to)
    decreases from, 2
  {
    var merged := Merge(from, Overlay(from, to));
    if from == to {
      assert merged == from;
    } else {
      forall k
        ensures NormAt(merged.fields, k) == NormAt(to.fields, k) <==> (k in from.fields ==> FaithfulAt(from, to, k))
      {
        RestoredAt(from, to, k);
      }
      SameByField(merged.fields, to.fields);
    }
  }

  lemma {:induction false} RestoredAt(from: Json, to: Json, k: string)
    requires from.Obj? && to.Obj? && from != to
    ensures NormAt(Merge(from, Overlay(from, to)).fields, k) == NormAt(to.fields, k) <==>
            (k in from.fields ==> FaithfulAt(from, to, k))
    decreases from, 1
  {
    var f, t := from.fields, to.fields;
    OverlaidAt(from, to, k);
    LeavesMeans(from, to, k);
    if k in f && k !in t {
      BlankIffHollow(f[k]);
    } else if k in f && k in t && f[k] != t[k] && f[k].Obj? && t[k].Obj? {
      RestoredNested(from, to, k);
    } else if k in t && (k in f ==> f[k] != t[k]) {
      PruneKeepsMeaning(t[k]);
      if k in f && f[k].Obj? { PruneIdempotent(t[k]); }
    }
  }

  lemma {:induction false} RestoredNested(from: Json, to: Json, k: string)
    requires from.Obj? && to.Obj? && k in from.fields && k in to.fields
    requires from.fields[k] != to.fields[k] && from.fields[k].Obj? && to.fields[k].Obj?
    ensures NormAt(Merge(from, Overlay(from, to)).fields, k) == NormAt(to.fields, k) <==> FaithfulAt(from, to, k)
    decreases from, 0
  {
    var fk, tk := from.fields[k], to.fields[k];
    var merged := Merge(from, Overlay(from, to)).fields;
    NestedMerge(from, to, k);
    if Silent(fk, tk) {
      assert NormAt(merged, k) == Some(Null);
    } else {
      OverlayRestoresIff(fk, tk);
      NormAtObjects(merged, to.fields, k);
    }
  }

  // A nested diff is merged into the nested object, unless it is nil: then null replaces the object.
  lemma {:induction false} NestedMerge(from: Json, to: Json, k: string)
    requires from.Obj? && to.Obj? && k in from.fields && k in to.fields
    requires from.fields[k] != to.fields[k] && from.fields[k].Obj? && to.fields[k].Obj?
    ensures var fk, tk, merged := from.fields[k], to.fields[k], Merge(from, Overlay(from, to)).fields;
            k in merged && merged[k] == if Silent(fk, tk) then Null else Merge(fk, Overlay(fk, tk))
  {
    var fk, tk := from.fields[k], to.fields[k];
    OverlaidAt(from, to, k);
    LeavesMeans(from, to, k);
    DiffIsPruned(fk, tk);
    DiffNilIff(fk, tk);
  }

  lemma {:induction false} NormAtObjects(a: map<string, Json>, b: map<string, Json>, k: string)
    requires k in a && k in b && a[k].Obj? && b[k].Obj?
    ensures NormAt(a, k) == NormAt(b, k) <==> SameMeaning(a[k], b[k])
  {
  }

  // ---- consequences ----

  // Changes that neither drop a list, an object or a null, nor turn an object into something else or back,
  // nor introduce a barren object.
  predicate Plain(from: Json, to: Json)
    requires from.Obj? && to.Obj?
  {
    && (forall k :: k in from.fields && k !in to.fields ==> IsScalar(from.fields[k]))
    && (forall k :: k in to.fields && k !in from.fields ==> !Barren(to.fields[k]))
    && (forall k :: k in from.fields && k in to.fields && from.fields[k] != to.fields[k] ==>
          && (from.fields[k].Obj? <==> to.fields[k].Obj?)
          && (from.fields[k].Obj? ==> Plain(from.fields[k], to.fields[k])))
  }

  lemma {:induction false} PlainSilentIsEqual(from: Json, to: Json)
    requires from.Obj? && to.Obj? && Plain(from, to) && Silent(from, to)
    ensures from == to
  {
    assert from.fields.Keys == to.fields.Keys;
    assert from.fields == to.fields;
  }

  /** For plain changes the diff is nil only between equal trees. */
  lemma {:induction false} PlainDiffNilIffEqual(from: Json, to: Json)
    requires from.Obj? && to.Obj? && Plain(from, to)
    ensures Diff(from, to) == Null <==> from == to
  {
    if from != to {
      DiffNilIff(from, to);
      if Silent(from, to) {
        PlainSilentIsEqual(from, to);
      }
    }
  }

  /** Plain changes are always restored. */
  lemma {:induction false} PlainIsFaithful(from: Json, to: Json)
    requires from.Obj? && to.Obj? && Plain(from, to)
    ensures Faithful(from, to)
  {
    forall k | k in from.fields ensures FaithfulAt(from, to, k) {
      if k in to.fields && from.fields[k] != to.fields[k] && from.fields[k].Obj? {
        var fk, tk := from.fields[k], to.fields[k];
        PlainDiffNilIffEqual(fk, tk);
        DiffNilIff(fk, tk);
        PlainIsFaithful(fk, tk);
      }
    }
  }

  /** The law fails beyond that: a list dropped next to an unchanged setting turns their parent into null. */
  lemma {:induction false} DroppedListLosesItsParent()
    ensures var from := Obj(map["a" := Obj(map["x" := Lst([]), "y" := Bool(true)])]);
            var to := Obj(map["a" := Obj(map["y" := Bool(true)])]);
            Merge(from, Overlay(from, to)) == Obj(map["a" := Null]) && !SameMeaning(Merge(from, Overlay(from, to)), to)
  {
    var fk, tk := Obj(map["x" := Lst([]), "y" := Bool(true)]), Obj(map["y" := Bool(true)]);
    var from, to := Obj(map["a" := fk]), Obj(map["a" := tk]);
    assert "x" in fk.fields && "x" !in tk.fields && fk != tk;
    assert Silent(fk, tk);
    NestedMerge(from, to, "a");
    var merged := Merge(from, Overlay(from, to)).fields;
    forall k | k != "a" ensures k !in merged { OverlaidAt(from, to, k); LeavesMeans(from, to, k); }
    assert merged == map["a" := Null];
    OverlayRestoresIff(from, to);
    assert !FaithfulAt(from, to, "a");
  }
}
