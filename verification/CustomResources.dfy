// pkg/config/validation.go (ValidateCustomResourceSyncProxyConflicts): which custom resources may be synced and
// proxied.
module CustomResources {
  import opened Text

  // schema.ParseGroupResource: everything after the first dot.
  function Group(resource: string): string {
    var i := Find(resource, '.');
    if i < |resource| then resource[i + 1..] else ""
  }

  // A key is resource.group, optionally followed by "/version".
  function ExtractGroup(key: string): string {
    Group(key[..Find(key, '/')])
  }

  /** The group of "resource.group/version", with or without the version, is the group. */
  lemma {:induction false} ExtractGroupOf(resource: string, group: string, version: string)
    requires '.' !in resource && '/' !in resource && '/' !in group && (version == "" || version[0] == '/')
    ensures ExtractGroup(resource + ['.'] + group + version) == group
  {
    var head := resource + ['.'] + group;
    var key := head + version;
    assert key[..|head|] == head;
    FindAt(key, '/', |head|);
    assert head[..|resource|] == resource && head[|resource| + 1..] == group;
    FindAt(head, '.', |resource|);
  }

  // Whether each key is enabled.
  type Resources = map<string, bool>

  function Enabled(m: Resources): set<string> {
    set k | k in m && m[k]
  }

  function Groups(keys: set<string>): set<string> {
    set k | k in keys :: ExtractGroup(k)
  }

  predicate NoConflicts(toHost: Resources, fromHost: Resources, proxy: Resources) {
    && Enabled(toHost) * Enabled(fromHost) == {}
    && Groups(Enabled(toHost)) * Groups(Enabled(proxy)) == {}
    && Groups(Enabled(fromHost)) * Groups(Enabled(proxy)) == {}
  }

  predicate Live(m: Resources, k: string) {
    k in m && m[k]
  }

  lemma {:induction false} GroupsMeetIff(a: Resources, b: Resources)
    ensures Groups(Enabled(a)) * Groups(Enabled(b)) != {} <==>
              exists k, q :: Live(a, k) && Live(b, q) && ExtractGroup(k) == ExtractGroup(q)
  {
    if g :| g in Groups(Enabled(a)) * Groups(Enabled(b)) {
      var k :| k in Enabled(a) && ExtractGroup(k) == g;
      var q :| q in Enabled(b) && ExtractGroup(q) == g;
      assert Live(a, k) && Live(b, q);
    }
    if k, q :| Live(a, k) && Live(b, q) && ExtractGroup(k) == ExtractGroup(q) {
      assert k in Enabled(a) && q in Enabled(b);
      assert ExtractGroup(k) in Groups(Enabled(a)) && ExtractGroup(q) in Groups(Enabled(b));
      assert ExtractGroup(k) in Groups(Enabled(a)) * Groups(Enabled(b));
    }
  }

  /** The check accepts exactly when no enabled key is synced both ways and no two enabled keys, one synced and one
      proxied, have the same group. */
  lemma {:induction false} NoConflictsIff(toHost: Resources, fromHost: Resources, proxy: Resources)
    ensures NoConflicts(toHost, fromHost, proxy) <==>
              && (forall k :: !(Live(toHost, k) && Live(fromHost, k)))
              && (forall k, q :: (Live(toHost, k) || Live(fromHost, k)) && Live(proxy, q) ==>
                    ExtractGroup(k) != ExtractGroup(q))
  {
    GroupsMeetIff(toHost, proxy);
    GroupsMeetIff(fromHost, proxy);
    forall k ensures k in Enabled(toHost) * Enabled(fromHost) <==> Live(toHost, k) && Live(fromHost, k) {
    }
  }
}
