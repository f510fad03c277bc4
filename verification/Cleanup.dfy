// pkg/cli/cleanup_namespaces.go: removing vCluster labels and annotations from leftover objects.
module Cleanup {
  import opened Common
  import opened JsonTree
  import opened JsonPatch

  const PREFIX := "vcluster.loft.sh/"
  const METADATA := "metadata"
  const LABELS := "labels"
  const ANNOTATIONS := "annotations"

  predicate HasPrefix(key: string) {
    PREFIX <= key
  }

  // ---- reading metadata ----

  predicate HasSection(doc: Json, section: string) {
    && doc.Obj? && METADATA in doc.fields && doc.fields[METADATA].Obj?
    && section in doc.fields[METADATA].fields && doc.fields[METADATA].fields[section].Obj?
  }

  function Section(doc: Json, section: string): map<string, Json>
    requires HasSection(doc, section)
  {
    doc.fields[METADATA].fields[section].fields
  }

  // GetLabels and GetAnnotations: a map of strings, null counting as empty; anything else reads as no map at all.
  predicate Readable(doc: Json, section: string) {
    HasSection(doc, section) && forall k :: k in Section(doc, section) ==>
        Section(doc, section)[k].Str? || Section(doc, section)[k].Null?
  }

  function KeysOf(doc: Json, section: string): set<string> {
    if Readable(doc, section) then Section(doc, section).Keys else {}
  }

  function Prefixed(keys: set<string>): set<string> {
    set k | k in keys && HasPrefix(k)
  }

  function Marked(doc: Json, section: string): set<string> {
    Prefixed(KeysOf(doc, section))
  }

  // ---- what the patch should do ----

  predicate Holds(doc: Json, section: string, keys: set<string>) {
    keys == {} || (HasSection(doc, section) && keys <= Section(doc, section).Keys)
  }

  // The document without these keys of the section; everything else is shared.
  function Without(doc: Json, section: string, keys: set<string>): Json
    requires Holds(doc, section, keys)
  {
    if keys == {} then doc
    else
      var metadata := doc.fields[METADATA].fields;
      Obj(doc.fields[METADATA := Obj(metadata[section := Obj(metadata[section].fields - keys)])])
  }

  predicate Strippable(doc: Json, labels: set<string>, annotations: set<string>) {
    Holds(doc, LABELS, labels) && Holds(doc, ANNOTATIONS, annotations)
  }

  lemma {:induction false} SectionsApart(doc: Json, keys: set<string>, annotations: set<string>)
    requires Holds(doc, LABELS, keys)
    ensures Holds(Without(doc, LABELS, keys), ANNOTATIONS, annotations) <==> Holds(doc, ANNOTATIONS, annotations)
  {
    assert LABELS[0] != ANNOTATIONS[0];
  }

  function Stripped(doc: Json, labels: set<string>, annotations: set<string>): Json
    requires Strippable(doc, labels, annotations)
  {
    SectionsApart(doc, labels, annotations);
    Without(Without(doc, LABELS, labels), ANNOTATIONS, annotations)
  }

  // ---- one operation ----

  function RemoveKey(section: string, key: string): Op {
    RemoveOp("/" + METADATA + "/" + section + "/" + Escape(key))
  }

  lemma {:induction false} RemoveNested(doc: Json, a: string, b: string, key: string)
    requires doc.Obj? && a in doc.fields && doc.fields[a].Obj? && b in doc.fields[a].fields
    ensures Remove(doc, [a, b, key]) ==
              match Remove(doc.fields[a].fields[b], [key])
              case None => None
              case Some(inner) => Some(Obj(doc.fields[a := Obj(doc.fields[a].fields[b := inner])]))
  {
    assert [a, b, key][1..] == [b, key] && [b, key][1..] == [key];
    assert Remove(doc.fields[a], [b, key]) ==
           match Remove(doc.fields[a].fields[b], [key])
           case None => None
           case Some(inner) => Some(Obj(doc.fields[a].fields[b := inner]));
  }

  // A section that is a list or a scalar has no member with a key of ours.
  lemma {:induction false} PrefixIsNoIndex(key: string)
    requires HasPrefix(key)
    ensures !IsIndex(key)
  {
    assert key[0] == 'v' && key[0] in key;
  }

  lemma {:induction false} ExecuteRemoveKey(doc: Json, section: string, key: string)
    requires (section == LABELS || section == ANNOTATIONS) && HasPrefix(key)
    ensures Execute(doc, RemoveKey(section, key)) ==
              if Holds(doc, section, {key}) then Some(Without(doc, section, {key})) else None
  {
    var path := "/" + METADATA + "/" + section + "/" + Escape(key);
    PathTokens(METADATA, section, key);
    assert !IsIndex(METADATA) by { assert METADATA[0] == 'm' && METADATA[0] in METADATA; }
    assert !IsIndex(section) by { assert section[0] in section; }
    PrefixIsNoIndex(key);
    RemoveKeyAt(doc, section, key);
  }

  lemma {:induction false} RemoveKeyAt(doc: Json, section: string, key: string)
    requires !IsIndex(METADATA) && !IsIndex(section) && !IsIndex(key)
    ensures Remove(doc, [METADATA, section, key]) ==
              if Holds(doc, section, {key}) then Some(Without(doc, section, {key})) else None
  {
    assert [METADATA, section, key][1..] == [section, key];
    if doc.Obj? && METADATA in doc.fields && doc.fields[METADATA].Obj? && section in doc.fields[METADATA].fields {
      RemoveNested(doc, METADATA, section, key);
    }
  }

  lemma {:induction false} Overwrite(m: map<string, Json>, k: string, v: Json, w: Json)
    ensures m[k := v][k := w] == m[k := w]
  {
  }

  lemma {:induction false} WithoutTwice(doc: Json, section: string, keys: set<string>, key: string)
    requires Holds(doc, section, keys) && key !in keys
    ensures Holds(Without(doc, section, keys), section, {key}) <==> Holds(doc, section, keys + {key})
    ensures Holds(doc, section, keys + {key}) ==>
              Without(Without(doc, section, keys), section, {key}) == Without(doc, section, keys + {key})
  {
    if keys == {} {
      assert keys + {key} == {key};
    } else {
      var fields, metadata := Section(doc, section), doc.fields[METADATA].fields;
      assert fields - keys - {key} == fields - (keys + {key});
      Overwrite(metadata, section, Obj(fields - keys), Obj(fields - (keys + {key})));
      Overwrite(doc.fields, METADATA, Obj(metadata[section := Obj(fields - keys)]),
                Obj(metadata[section := Obj(fields - (keys + {key}))]));
    }
  }

  // ---- the whole patch ----

  /** Applied to any document, the patch removes exactly these keys, or fails because one of them is missing. */
  ghost predicate Does(patch: seq<Op>, labels: set<string>, annotations: set<string>) {
    forall doc :: Apply(doc, patch) ==
      if Strippable(doc, labels, annotations) then Some(Stripped(doc, labels, annotations)) else None
  }

  lemma {:induction false} DoesLabel(patch: seq<Op>, labels: set<string>, key: string)
    requires Does(patch, labels, {}) && HasPrefix(key) && key !in labels
    ensures Does(patch + [RemoveKey(LABELS, key)], labels + {key}, {})
  {
    var after := patch + [RemoveKey(LABELS, key)];
    assert after[..|after| - 1] == patch;
    forall doc ensures Apply(doc, after) ==
      if Strippable(doc, labels + {key}, {}) then Some(Stripped(doc, labels + {key}, {})) else None
    {
      if Holds(doc, LABELS, labels) {
        ExecuteRemoveKey(Without(doc, LABELS, labels), LABELS, key);
        WithoutTwice(doc, LABELS, labels, key);
      }
    }
  }

  lemma {:induction false} DoesAnnotation(patch: seq<Op>, labels: set<string>, annotations: set<string>, key: string)
    requires Does(patch, labels, annotations) && HasPrefix(key) && key !in annotations
    ensures Does(patch + [RemoveKey(ANNOTATIONS, key)], labels, annotations + {key})
  {
    var after := patch + [RemoveKey(ANNOTATIONS, key)];
    assert after[..|after| - 1] == patch;
    forall doc ensures Apply(doc, after) ==
      if Strippable(doc, labels, annotations + {key}) then Some(Stripped(doc, labels, annotations + {key})) else None
    {
      if Strippable(doc, labels, annotations) {
        var unlabelled := Without(doc, LABELS, labels);
        SectionsApart(doc, labels, annotations);
        SectionsApart(doc, labels, annotations + {key});
        ExecuteRemoveKey(Without(unlabelled, ANNOTATIONS, annotations), ANNOTATIONS, key);
        WithoutTwice(unlabelled, ANNOTATIONS, annotations, key);
      }
    }
  }

  lemma {:induction false} PrefixedMore(done: set<string>, key: string)
    ensures Prefixed(done + {key}) == if HasPrefix(key) then Prefixed(done) + {key} else Prefixed(done)
  {
  }

  lemma {:induction false} DoesNothing()
    ensures Does([], Prefixed({}), Prefixed({}))
  {
    assert Prefixed({}) == {};
  }

  // The loop over the labels, in any order.
  method RemoveLabels(keys: set<string>) returns (patch: seq<Op>)
    ensures Does(patch, Prefixed(keys), {})
    ensures patch == [] <==> Prefixed(keys) == {}
  {
    patch := [];
    var todo := keys;
    ghost var done: set<string> := {};
    DoesNothing();
    while todo != {}
      invariant done + todo == keys && done !! todo
      invariant Does(patch, Prefixed(done), {})
      invariant patch == [] <==> Prefixed(done) == {}
      decreases |todo|
    {
      var key :| key in todo;
      Visit(keys, done, todo, key);
      PrefixedMore(done, key);
      if HasPrefix(key) {
        DoesLabel(patch, Prefixed(done), key);
        patch := patch + [RemoveKey(LABELS, key)];
      }
      todo, done := todo - {key}, done + {key};
    }
    assert done == keys;
  }

  // The loop over the annotations, appending to the patch for the labels.
  method RemoveAnnotations(before: seq<Op>, ghost labels: set<string>, keys: set<string>) returns (patch: seq<Op>)
    requires Does(before, labels, {})
    ensures Does(patch, labels, Prefixed(keys))
    ensures patch == [] <==> before == [] && Prefixed(keys) == {}
  {
    patch := before;
    var todo := keys;
    ghost var done: set<string> := {};
    assert Prefixed(done) == {};
    while todo != {}
      invariant done + todo == keys && done !! todo
      invariant Does(patch, labels, Prefixed(done))
      invariant patch == [] <==> before == [] && Prefixed(done) == {}
      decreases |todo|
    {
      var key :| key in todo;
      Visit(keys, done, todo, key);
      PrefixedMore(done, key);
      if HasPrefix(key) {
        DoesAnnotation(patch, labels, Prefixed(done), key);
        patch := patch + [RemoveKey(ANNOTATIONS, key)];
      }
      todo, done := todo - {key}, done + {key};
    }
    assert done == keys;
  }

  // ---- the objects of one resource type ----

  // What cleaning one object means.
  predicate Clean(doc: Json) {
    Marked(doc, LABELS) == {} && Marked(doc, ANNOTATIONS) == {}
  }

  function Cleaned(doc: Json): Json {
    MarkedIsHeld(doc);
    Stripped(doc, Marked(doc, LABELS), Marked(doc, ANNOTATIONS))
  }

  lemma {:induction false} MarkedIsHeld(doc: Json)
    ensures Strippable(doc, Marked(doc, LABELS), Marked(doc, ANNOTATIONS))
  {
  }

  // One object after a pass over all of them.
  function Outcome(doc: Json, denied: bool): Json {
    if denied && !Clean(doc) then doc else Cleaned(doc)
  }

  // The objects after a pass that has visited the names in done.
  function Pass(listed: map<string, Json>, done: set<string>, denied: set<string>): map<string, Json> {
    map n | n in listed :: if n in done then Outcome(listed[n], n in denied) else listed[n]
  }

  function Failures(listed: map<string, Json>, done: set<string>, denied: set<string>): set<string> {
    set n | n in done && n in listed && n in denied && !Clean(listed[n])
  }

  lemma {:induction false} PassOne(listed: map<string, Json>, done: set<string>, denied: set<string>, n: string)
    requires n in listed && n !in done
    ensures Pass(listed, done, denied)[n] == listed[n]
    ensures Pass(listed, done + {n}, denied) == Pass(listed, done, denied)[n := Outcome(listed[n], n in denied)]
    ensures Failures(listed, done + {n}, denied) ==
              Failures(listed, done, denied) + if n in denied && !Clean(listed[n]) then {n} else {}
  {
  }

  class Resources {
    var objects: map<string, Json>

    constructor (objects: map<string, Json>)
      ensures this.objects == objects
    {
      this.objects := objects;
    }

    /** Cleans the stored object by the metadata that was listed; denied is any other failure of the request. The
        object may have changed or gone since: the patch then removes the listed keys from what is stored, or changes
        nothing. */
    method CleanupObjectMetadata(name: string, listed: Json, denied: bool) returns (ok: bool)
      modifies this
      ensures var labels, annotations := Marked(listed, LABELS), Marked(listed, ANNOTATIONS);
              var stored := old(objects);
              if Clean(listed) || (name !in stored && !denied) then ok && objects == stored
              else if !denied && Strippable(stored[name], labels, annotations) then
                ok && objects == stored[name := Stripped(stored[name], labels, annotations)]
              else !ok && objects == stored
      ensures name in old(objects) && listed == old(objects)[name] ==>
                && (ok <==> Clean(listed) || !denied)
                && objects == old(objects)[name := Outcome(listed, denied)]
    {
      MarkedIsHeld(listed);
      var patch := RemoveLabels(KeysOf(listed, LABELS));
      patch := RemoveAnnotations(patch, Marked(listed, LABELS), KeysOf(listed, ANNOTATIONS));
      if |patch| == 0 {
        return true;
      }
      if denied {
        return false;
      }
      if name !in objects {
        return true;
      }
      var result := Apply(objects[name], patch);
      if result.None? {
        return false;
      }
      objects := objects[name := result.value];
      return true;
    }

    /** cleanupObjectsByGVR: one failing object does not keep the others from being cleaned. */
    method CleanupObjects(denied: set<string>) returns (errs: set<string>)
      modifies this
      ensures errs == Failures(old(objects), old(objects).Keys, denied)
      ensures objects == Pass(old(objects), old(objects).Keys, denied)
    {
      var listed := objects;
      var todo := listed.Keys;
      ghost var done: set<string> := {};
      errs := {};
      while todo != {}
        invariant done + todo == listed.Keys && done !! todo
        invariant objects == Pass(listed, done, denied) && errs == Failures(listed, done, denied)
        decreases |todo|
      {
        var n :| n in todo;
        Visit(listed.Keys, done, todo, n);
        PassOne(listed, done, denied, n);
        var ok := CleanupObjectMetadata(n, listed[n], n in denied);
        if !ok {
          errs := errs + {n};
        }
        todo, done := todo - {n}, done + {n};
      }
      assert done == listed.Keys;
    }
  }

  // ---- what cleaning achieves ----

  /** A whole pass, object by object: an error exactly for one that needs cleaning and is denied, which stays as it is;
      all others are cleaned. */
  lemma {:induction false} PassIsExact(listed: map<string, Json>, denied: set<string>, n: string)
    requires n in listed
    ensures n in Failures(listed, listed.Keys, denied) <==> n in denied && !Clean(listed[n])
    ensures n in Pass(listed, listed.Keys, denied)
    ensures Pass(listed, listed.Keys, denied)[n] ==
              if n in Failures(listed, listed.Keys, denied) then listed[n] else Cleaned(listed[n])
  {
  }

  lemma {:induction false} WithoutReads(doc: Json, section: string, other: string)
    requires section != other
    ensures Holds(doc, section, Marked(doc, section))
    ensures var after := Without(doc, section, Marked(doc, section));
            && Marked(after, section) == {}
            && Marked(after, other) == Marked(doc, other)
  {
    MarkedIsHeld(doc);
  }

  /** An object needs no patch exactly when no label or annotation has the prefix, where they can be read; it is then
      left as it is. */
  lemma {:induction false} CleanIff(doc: Json)
    ensures Clean(doc) <==>
              forall section | section in {LABELS, ANNOTATIONS} && HasSection(doc, section) ::
                var m := Section(doc, section);
                (forall k :: k in m ==> m[k].Str? || m[k].Null?) ==> forall k :: k in m ==> !(PREFIX <= k)
    ensures Clean(doc) ==> Cleaned(doc) == doc
  {
    forall section | section in {LABELS, ANNOTATIONS}
      ensures Marked(doc, section) == {} <==>
                (Readable(doc, section) ==> forall k :: k in Section(doc, section) ==> !(PREFIX <= k))
    {
      if Readable(doc, section) {
        var m := Section(doc, section);
        if k :| k in m && PREFIX <= k { assert k in Marked(doc, section); }
      }
    }
  }

  /** A second pass finds nothing to remove. */
  lemma {:induction false} CleanedIsClean(doc: Json)
    ensures Clean(Cleaned(doc)) && Cleaned(Cleaned(doc)) == Cleaned(doc)
  {
    assert LABELS[0] != ANNOTATIONS[0];
    WithoutReads(doc, LABELS, ANNOTATIONS);
    WithoutReads(Without(doc, LABELS, Marked(doc, LABELS)), ANNOTATIONS, LABELS);
  }

  // Equal but for these sections.
  predicate SameOutside(before: Json, after: Json, sections: set<string>) {
    || before == after
    || (&& before.Obj? && after.Obj? && before.fields - {METADATA} == after.fields - {METADATA}
        && METADATA in before.fields && METADATA in after.fields
        && before.fields[METADATA].Obj? && after.fields[METADATA].Obj?
        && before.fields[METADATA].fields - sections == after.fields[METADATA].fields - sections)
  }

  function Unprefixed(m: map<string, Json>): map<string, Json> {
    map k | k in m && !(PREFIX <= k) :: m[k]
  }

  lemma {:induction false} UnprefixedIsRest(m: map<string, Json>)
    ensures m - Prefixed(m.Keys) == Unprefixed(m)
  {
  }

  // A section of strings and nulls loses its prefixed keys; any other stays.
  predicate LosesExactlyPrefixed(before: Json, after: Json, section: string) {
    && (HasSection(after, section) <==> HasSection(before, section))
    && (HasSection(before, section) ==>
          var m := Section(before, section);
          Section(after, section) ==
            if forall k :: k in m ==> m[k].Str? || m[k].Null? then Unprefixed(m) else m)
  }

  lemma {:induction false} WithoutExactly(doc: Json, section: string, other: string)
    requires section != other
    ensures Holds(doc, section, Marked(doc, section))
    ensures var after := Without(doc, section, Marked(doc, section));
            && LosesExactlyPrefixed(doc, after, section) && SameOutside(doc, after, {section})
            && (HasSection(after, other) <==> HasSection(doc, other))
            && (HasSection(doc, other) ==> Section(after, other) == Section(doc, other))
  {
    MarkedIsHeld(doc);
    if Readable(doc, section) {
      UnprefixedIsRest(Section(doc, section));
    }
  }

  /** Cleaning removes exactly the prefixed keys of a readable section, whatever the document, and nothing else. */
  lemma {:induction false} CleanedExactly(doc: Json)
    ensures LosesExactlyPrefixed(doc, Cleaned(doc), LABELS) && LosesExactlyPrefixed(doc, Cleaned(doc), ANNOTATIONS)
    ensures SameOutside(doc, Cleaned(doc), {LABELS, ANNOTATIONS})
  {
    assert LABELS[0] != ANNOTATIONS[0];
    var unlabelled := Without(doc, LABELS, Marked(doc, LABELS));
    WithoutExactly(doc, LABELS, ANNOTATIONS);
    WithoutReads(doc, LABELS, ANNOTATIONS);
    WithoutExactly(unlabelled, ANNOTATIONS, LABELS);
    Chain(doc, unlabelled, Cleaned(doc));
  }

  lemma {:induction false} Chain(a: Json, b: Json, c: Json)
    requires SameOutside(a, b, {LABELS}) && SameOutside(b, c, {ANNOTATIONS})
    ensures SameOutside(a, c, {LABELS, ANNOTATIONS})
  {
    if a != b {
      Narrow(a.fields[METADATA].fields, b.fields[METADATA].fields, LABELS, ANNOTATIONS);
    }
    if b != c {
      Narrow(b.fields[METADATA].fields, c.fields[METADATA].fields, ANNOTATIONS, LABELS);
    }
  }

  lemma {:induction false} Narrow(m: map<string, Json>, n: map<string, Json>, x: string, y: string)
    requires m - {x} == n - {x}
    ensures m - {x, y} == n - {x, y} && m - {y, x} == n - {y, x}
  {
    assert m - {x, y} == m - {x} - {y} && n - {x, y} == n - {x} - {y};
    assert {x, y} == {y, x};
  }
}
