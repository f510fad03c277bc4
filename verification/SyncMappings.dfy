// pkg/config/validation.go: mappings of host objects to virtual ones, for config maps, secrets and custom resources.
module SyncMappings {
  import opened Patches
  import opened Text

  // Names as Kubernetes accepts them.
  datatype Names = Names(isNamespace: string -> bool, isSubdomain: string -> bool)

  type Mappings = map<string, string>   // host reference -> virtual reference

  // ---- one entry ----

  predicate ValidObject(names: Names, ref: seq<string>) {
    |ref| == 2 && ref[1] != "" && ref[1] != "*" ==> names.isSubdomain(ref[1])
  }

  // validateFromHostMappingEntry
  predicate ValidEntry(names: Names, key: string, value: string) {
    && Count(key, '/') <= 1 && Count(value, '/') <= 1
    && (key != "" ==>
          && (names.isNamespace(Split(key, '/')[0]) || Split(key, '/')[0] == "")
          && ValidObject(names, Split(key, '/')))
    && names.isNamespace(Split(value, '/')[0]) && ValidObject(names, Split(value, '/'))
  }

  // The tests of validateFromHostSyncMappings on one entry.
  predicate ValidPair(names: Names, key: string, value: string) {
    && ('/' in key || key == "") && ('/' in value || key == "")
    && !(key == "*" && '/' in value && !HasSuffix(value, "/*"))
    && !(HasSuffix(key, "/*") && !HasSuffix(value, "/*"))
    && ValidEntry(names, key, value)
  }

  datatype Switch = Switch(enabled: bool, byName: Mappings)

  predicate ValidSwitch(names: Names, s: Switch) {
    s.enabled ==> s.byName != map[] && forall k :: k in s.byName ==> ValidPair(names, k, s.byName[k])
  }

  method ValidateSwitch(names: Names, s: Switch) returns (ok: bool)
    ensures ok <==> ValidSwitch(names, s)
  {
    if !s.enabled {
      return true;
    }
    if |s.byName| == 0 {
      return false;
    }
    var todo := s.byName.Keys;
    while todo != {}
      invariant todo <= s.byName.Keys
      invariant forall k :: k in s.byName && k !in todo ==> ValidPair(names, k, s.byName[k])
      decreases |todo|
    {
      var k :| k in todo;
      if !ValidPair(names, k, s.byName[k]) {
        return false;
      }
      todo := todo - {k};
    }
    ok := true;
  }

  // ---- custom resources ----

  datatype Resource = Resource(enabled: bool, scope: string, patches: seq<Patch>, byName: Mappings)

  const NAMESPACED := "Namespaced"
  const CLUSTER := "Cluster"

  predicate ValidResource(names: Names, r: Resource) {
    && (r.scope == "" || r.scope == CLUSTER || r.scope == NAMESPACED)
    && (r.scope == NAMESPACED <==> r.byName != map[])
    && ValidPatches(r.patches)
    && (forall k :: k in r.byName ==> ValidEntry(names, k, r.byName[k]))
  }

  predicate ValidResources(names: Names, resources: map<string, Resource>) {
    forall k :: k in resources ==> ValidResource(names, resources[k])
  }

  method ValidateResource(names: Names, r: Resource) returns (ok: bool)
    ensures ok <==> ValidResource(names, r)
  {
    if r.scope != "" && r.scope != CLUSTER && r.scope != NAMESPACED {
      return false;
    }
    if |r.byName| > 0 && r.scope != NAMESPACED {
      return false;
    }
    if r.scope == NAMESPACED && |r.byName| == 0 {
      return false;
    }
    ok := ValidatePatches([r.patches]);
    assert AllValidPatches([r.patches]) <==> ValidPatches([r.patches][0]);
    if !ok {
      return;
    }
    if r.scope == NAMESPACED {
      var todo := r.byName.Keys;
      while todo != {}
        invariant todo <= r.byName.Keys
        invariant forall k :: k in r.byName && k !in todo ==> ValidEntry(names, k, r.byName[k])
        decreases |todo|
      {
        var k :| k in todo;
        if !ValidEntry(names, k, r.byName[k]) {
          return false;
        }
        todo := todo - {k};
      }
    }
    ok := true;
  }

  method ValidateResources(names: Names, resources: map<string, Resource>) returns (ok: bool)
    ensures ok <==> ValidResources(names, resources)
  {
    var todo := resources.Keys;
    while todo != {}
      invariant todo <= resources.Keys
      invariant forall k :: k in resources && k !in todo ==> ValidResource(names, resources[k])
      decreases |todo|
    {
      var k :| k in todo;
      ok := ValidateResource(names, resources[k]);
      if !ok {
        return;
      }
      todo := todo - {k};
    }
    ok := true;
  }

  // ---- the forms that are accepted ----

  datatype Ref = Ref(namespace: string, item: string)

  function Written(r: Ref): string {
    r.namespace + ['/'] + r.item
  }

  predicate ValidName(names: Names, item: string) {
    item == "" || item == "*" || names.isSubdomain(item)
  }

  // The reference that a text with one '/' stands for.
  predicate Reads(s: string, r: Ref) {
    s == Written(r) && '/' !in r.namespace && '/' !in r.item
  }

  lemma {:induction false} CountNone(s: string, c: char)
    ensures Count(s, c) == 0 <==> c !in s
  {
    if s != "" { CountNone(s[1..], c); }
  }

  lemma {:induction false} CountSum(a: string, b: string, c: char)
    ensures Count(a + b, c) == Count(a, c) + Count(b, c)
  {
    if a == "" {
      assert a + b == b;
    } else {
      assert (a + b)[1..] == a[1..] + b;
      CountSum(a[1..], b, c);
    }
  }

  lemma {:induction false} ReadsMeans(s: string, r: Ref)
    requires Reads(s, r)
    ensures Count(s, '/') == 1 && '/' in s && Split(s, '/') == [r.namespace, r.item]
    ensures HasSuffix(s, "/*") <==> r.item == "*"
  {
    CountNone(r.namespace, '/');
    CountNone(r.item, '/');
    CountSum(r.namespace + ['/'], r.item, '/');
    CountSum(r.namespace, ['/'], '/');
    assert Count(['/'], '/') == 1 by { assert ['/'][1..] == []; }
    SplitFirst(r.namespace, '/', r.item);
    SplitWhole(r.item, '/');
    assert s[|r.namespace|] == '/' && s[|r.namespace| + 1..] == r.item;
    StarSuffix(s, r);
  }

  lemma {:induction false} StarSuffix(s: string, r: Ref)
    requires Reads(s, r)
    ensures HasSuffix(s, "/*") <==> r.item == "*"
  {
    var n := |s|;
    if HasSuffix(s, "/*") {
      assert s[n - 2..][0] == '/' && s[n - 2..][1] == '*';
      assert s[n - 2] == '/' && s[n - 1] == '*';
      assert |r.item| >= 1;
      if |r.item| > 1 {
      }
    }
    if r.item == "*" {
      assert s[n - 2..] == "/*";
    }
  }

  // A text with exactly one '/' is a reference.
  lemma {:induction false} OneSlashReads(s: string) returns (r: Ref)
    requires Count(s, '/') == 1
    ensures Reads(s, r)
  {
    CountNone(s, '/');
    var i := Find(s, '/');
    assert i < |s| by { assert s[..|s|] == s; }
    r := Ref(s[..i], s[i + 1..]);
    assert s == Written(r);
    CountNone(r.namespace, '/');
    CountSum(r.namespace + ['/'], r.item, '/');
    CountSum(r.namespace, ['/'], '/');
    assert Count(['/'], '/') == 1 by { assert ['/'][1..] == []; }
    CountNone(r.item, '/');
  }

  predicate ValidForm(names: Names, h: Ref, v: Ref) {
    && (h.namespace == "" || names.isNamespace(h.namespace)) && names.isNamespace(v.namespace)
    && ValidName(names, h.item) && ValidName(names, v.item) && (h.item == "*" ==> v.item == "*")
  }

  lemma {:induction false} PairOfRefs(names: Names, key: string, value: string, h: Ref, v: Ref)
    requires Reads(key, h) && Reads(value, v)
    ensures ValidPair(names, key, value) <==> ValidForm(names, h, v)
  {
    ReadsMeans(key, h);
    ReadsMeans(value, v);
    assert key != "*" by { assert '/' !in "*"; }
  }

  /** A mapping with a non-empty host side is accepted exactly when both sides are references, the host namespace is
      valid or left out, the virtual one is valid, the objects are names, "*" or left out, and "*" goes to "*". */
  lemma {:induction false} PairFormIff(names: Names, key: string, value: string)
    requires key != ""
    ensures ValidPair(names, key, value) <==> exists h, v :: Reads(key, h) && Reads(value, v) && ValidForm(names, h, v)
  {
    if ValidPair(names, key, value) {
      CountNone(key, '/');
      CountNone(value, '/');
      var h := OneSlashReads(key);
      var v := OneSlashReads(value);
      PairOfRefs(names, key, value, h, v);
    }
    if h, v :| Reads(key, h) && Reads(value, v) && ValidForm(names, h, v) {
      PairOfRefs(names, key, value, h, v);
    }
  }

  /** The host side "", which stands for the namespace of the vCluster, is accepted exactly with a valid virtual
      namespace alone or in a reference. Only a namespace, or all objects of one, is announced, but that test looks for
      the key "*", which no accepted mapping has; so the announcement holds exactly when the object, if any, is "*". */
  lemma {:induction false} HostNamespaceFormIff(names: Names, value: string)
    ensures ValidPair(names, "", value) <==>
              || ('/' !in value && names.isNamespace(value))
              || exists v :: Reads(value, v) && names.isNamespace(v.namespace) && ValidName(names, v.item)
    ensures !ValidPair(names, "*", value)
  {
    assert '/' !in "*";
    CountNone(value, '/');
    if '/' !in value {
      SplitWhole(value, '/');
    } else {
      if Count(value, '/') == 1 {
        var v := OneSlashReads(value);
        ReadsMeans(value, v);
      }
      if v :| Reads(value, v) && names.isNamespace(v.namespace) && ValidName(names, v.item) { ReadsMeans(value, v); }
    }
  }

  lemma {:induction false} HostNamespaceToOneObject(names: Names)
    requires names.isNamespace("a") && names.isSubdomain("b")
    ensures ValidPair(names, "", "a/b")
  {
    var r := Ref("a", "b");
    assert Written(r) == "a/b";
    ReadsMeans("a/b", r);
  }
}
