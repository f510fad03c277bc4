// pkg/config/validation.go (the node-pool loops of validatePrivatedNodesMode): names are unique across all providers.
module NodePools {
  import opened Common

  datatype Requirement = Requirement(property: string, operator: string, value: string, values: seq<string>)

  datatype Pool = Pool(name: string, quantity: int, selector: seq<Requirement>)

  datatype Provider = Provider(name: string, static_: seq<Pool>, dynamic: seq<Pool>)

  const OPERATORS: seq<string> := ["", "In", "NotIn", "Exists", "DoesNotExist", "Gt", "Lt"]

  predicate HasValue(r: Requirement) {
    r.value != "" || |r.values| > 0
  }

  // What validateRequirements accepts: Exists and DoesNotExist take no value, every other operator takes one form of
  // it.
  predicate ValidRequirement(r: Requirement) {
    && r.property != "" && r.operator in OPERATORS && !(r.value != "" && |r.values| > 0)
    && (HasValue(r) <==> r.operator != "Exists" && r.operator != "DoesNotExist")
  }

  predicate ValidRequirements(rs: seq<Requirement>) {
    forall i :: 0 <= i < |rs| ==> ValidRequirement(rs[i])
  }

  method ValidateRequirements(rs: seq<Requirement>) returns (ok: bool)
    ensures ok <==> ValidRequirements(rs)
  {
    for i := 0 to |rs|
      invariant forall j :: 0 <= j < i ==> ValidRequirement(rs[j])
    {
      ok := ValidateRequirement(rs[i]);
      if !ok {
        return;
      }
    }
    return true;
  }

  method ValidateRequirement(r: Requirement) returns (ok: bool)
    ensures ok <==> ValidRequirement(r)
  {
    if r.property == "" {
      return false;
    }
    if r.operator !in OPERATORS {
      return false;
    }
    if r.value != "" && |r.values| > 0 {
      return false;
    }
    if r.operator == "" || r.operator == "In" || r.operator == "NotIn" {
      if r.value == "" && |r.values| == 0 {
        return false;
      }
    }
    if r.operator == "Exists" || r.operator == "DoesNotExist" {
      if r.value != "" || |r.values| > 0 {
        return false;
      }
    }
    if r.operator == "Gt" || r.operator == "Lt" {
      if r.value == "" && |r.values| == 0 {
        return false;
      }
    }
    return true;
  }

  // ---- names ----

  ghost predicate Distinct(names: seq<string>) {
    forall i, j :: 0 <= i < j < |names| ==> names[i] != names[j]
  }

  function Names(pools: seq<Pool>): seq<string> {
    seq(|pools|, i requires 0 <= i < |pools| => pools[i].name)
  }

  function PoolNames(p: Provider): seq<string> {
    Names(p.static_) + Names(p.dynamic)
  }

  // The names of all pools of all providers.
  function AllNames(providers: seq<Provider>): seq<string> {
    if providers == [] then [] else AllNames(providers[..|providers| - 1]) + PoolNames(providers[|providers| - 1])
  }

  function ProviderNames(providers: seq<Provider>): seq<string> {
    seq(|providers|, i requires 0 <= i < |providers| => providers[i].name)
  }

  lemma {:induction false} DistinctMore(names: seq<string>, x: string)
    ensures Distinct(names + [x]) <==> Distinct(names) && x !in names
    ensures ToSet(names + [x]) == ToSet(names) + {x}
  {
    var more := names + [x];
    assert forall i :: 0 <= i < |names| ==> more[i] == names[i];
    assert more[|names|] == x;
    if Distinct(more) { assert forall i, j :: 0 <= i < j < |names| ==> names[i] == more[i] && names[j] == more[j]; }
  }

  lemma {:induction false} DistinctPrefix(names: seq<string>, more: seq<string>)
    requires Distinct(names + more)
    ensures Distinct(names)
  {
    assert forall i :: 0 <= i < |names| ==> (names + more)[i] == names[i];
  }

  // ---- one list of pools ----

  predicate ValidPool(p: Pool, counted: bool) {
    p.name != "" && (counted ==> p.quantity >= 0) && ValidRequirements(p.selector)
  }

  predicate ValidPools(pools: seq<Pool>, counted: bool) {
    forall i :: 0 <= i < |pools| ==> ValidPool(pools[i], counted)
  }

  // Static pools are counted, dynamic ones are not; before lists the names that were seen.
  method ValidatePools(pools: seq<Pool>, counted: bool, ghost before: seq<string>, seen: set<string>)
    returns (ok: bool, seen': set<string>)
    requires seen == ToSet(before) && Distinct(before)
    ensures ok <==> ValidPools(pools, counted) && Distinct(before + Names(pools))
    ensures ok ==> seen' == ToSet(before + Names(pools))
  {
    seen' := seen;
    assert before + Names(pools[..0]) == before;
    for i := 0 to |pools|
      invariant ValidPools(pools[..i], counted)
      invariant Distinct(before + Names(pools[..i])) && seen' == ToSet(before + Names(pools[..i]))
    {
      var pool := pools[i];
      TakePool(pools, i, before);
      if pool.name == "" {
        return false, seen';
      }
      if counted && pool.quantity < 0 {
        return false, seen';
      }
      if pool.name in seen' {
        return false, seen';
      }
      seen' := seen' + {pool.name};
      ok := ValidateRequirements(pool.selector);
      if !ok {
        return;
      }
    }
    assert pools[..|pools|] == pools;
    ok := true;
  }

  lemma {:induction false} TakePool(pools: seq<Pool>, i: nat, before: seq<string>)
    requires i < |pools|
    ensures var names := before + Names(pools[..i]);
            && before + Names(pools[..i + 1]) == names + [pools[i].name]
            && (Distinct(names + [pools[i].name]) <==> Distinct(names) && pools[i].name !in names)
            && ToSet(names + [pools[i].name]) == ToSet(names) + {pools[i].name}
            && (Distinct(before + Names(pools)) ==> Distinct(names + [pools[i].name]))
  {
    var names := before + Names(pools[..i]);
    assert Names(pools[..i + 1]) == Names(pools[..i]) + [pools[i].name];
    DistinctMore(names, pools[i].name);
    if Distinct(before + Names(pools)) {
      assert before + Names(pools) == (names + [pools[i].name]) + Names(pools[i + 1..]);
      DistinctPrefix(names + [pools[i].name], Names(pools[i + 1..]));
    }
  }

  // ---- all providers ----

  predicate ValidProvider(p: Provider) {
    p.name != "" && ValidPools(p.static_, true) && ValidPools(p.dynamic, false)
  }

  // The two inner loops: static pools, then dynamic ones.
  method ValidateProviderPools(p: Provider, ghost before: seq<string>, seen: set<string>)
    returns (ok: bool, seen': set<string>)
    requires seen == ToSet(before) && Distinct(before)
    ensures ok <==> ValidPools(p.static_, true) && ValidPools(p.dynamic, false) && Distinct(before + PoolNames(p))
    ensures ok ==> seen' == ToSet(before + PoolNames(p))
  {
    StaticClash(before, p);
    ok, seen' := ValidatePools(p.static_, true, before, seen);
    if !ok {
      return;
    }
    ok, seen' := ValidatePools(p.dynamic, false, before + Names(p.static_), seen');
  }

  /** Accepted exactly when every part is valid, no provider appears twice and no two pools anywhere share a name. */
  method ValidateNodePools(providers: seq<Provider>) returns (ok: bool)
    ensures ok <==>
              && (forall i :: 0 <= i < |providers| ==> ValidProvider(providers[i]))
              && Distinct(ProviderNames(providers)) && Distinct(AllNames(providers))
  {
    var names: set<string>, used: set<string> := {}, {};
    for i := 0 to |providers|
      invariant forall j :: 0 <= j < i ==> ValidProvider(providers[j])
      invariant Distinct(ProviderNames(providers[..i])) && used == ToSet(ProviderNames(providers[..i]))
      invariant Distinct(AllNames(providers[..i])) && names == ToSet(AllNames(providers[..i]))
    {
      var p := providers[i];
      TakeProvider(providers, i);
      AllNamesPrefix(providers, i + 1);
      if p.name == "" {
        return false;
      }
      if p.name in used {
        return false;
      }
      used := used + {p.name};
      ok, names := ValidateProviderPools(p, AllNames(providers[..i]), names);
      if !ok {
        return;
      }
    }
    assert providers[..|providers|] == providers;
    ok := true;
  }

  lemma {:induction false} StaticClash(before: seq<string>, p: Provider)
    ensures before + PoolNames(p) == before + Names(p.static_) + Names(p.dynamic)
    ensures Distinct(before + PoolNames(p)) ==> Distinct(before + Names(p.static_))
  {
    assert before + PoolNames(p) == before + Names(p.static_) + Names(p.dynamic);
    if Distinct(before + PoolNames(p)) { DistinctPrefix(before + Names(p.static_), Names(p.dynamic)); }
  }

  lemma {:induction false} TakeProvider(providers: seq<Provider>, i: nat)
    requires i < |providers|
    ensures var used := ProviderNames(providers[..i]);
            && ProviderNames(providers[..i + 1]) == used + [providers[i].name]
            && (Distinct(used + [providers[i].name]) <==> Distinct(used) && providers[i].name !in used)
            && ToSet(used + [providers[i].name]) == ToSet(used) + {providers[i].name}
            && (Distinct(ProviderNames(providers)) ==> Distinct(used + [providers[i].name]))
    ensures AllNames(providers[..i + 1]) == AllNames(providers[..i]) + PoolNames(providers[i])
  {
    var used := ProviderNames(providers[..i]);
    assert ProviderNames(providers[..i + 1]) == used + [providers[i].name];
    DistinctMore(used, providers[i].name);
    if Distinct(ProviderNames(providers)) {
      assert ProviderNames(providers) == (used + [providers[i].name]) + ProviderNames(providers[i + 1..]);
      DistinctPrefix(used + [providers[i].name], ProviderNames(providers[i + 1..]));
    }
    assert providers[..i + 1][..i] == providers[..i];
  }

  lemma {:induction false} AllNamesPrefix(providers: seq<Provider>, i: nat)
    requires i <= |providers|
    ensures Distinct(AllNames(providers)) ==> Distinct(AllNames(providers[..i]))
    decreases |providers|
  {
    if i == |providers| {
      assert providers[..i] == providers;
    } else {
      var n := |providers| - 1;
      AllNamesPrefix(providers[..n], i);
      assert providers[..n][..i] == providers[..i];
      if Distinct(AllNames(providers)) { DistinctPrefix(AllNames(providers[..n]), PoolNames(providers[n])); }
    }
  }

  // ---- what distinct names mean, pool by pool ----

  function Pools(p: Provider): seq<Pool> {
    p.static_ + p.dynamic
  }

  ghost predicate Uses(p: Provider, name: string) {
    exists a :: 0 <= a < |Pools(p)| && Pools(p)[a].name == name
  }

  // No two pools of a provider, and no pools of two providers, have the same name.
  ghost predicate OwnNames(providers: seq<Provider>) {
    && (forall i, a, b :: 0 <= i < |providers| && 0 <= a < b < |Pools(providers[i])| ==>
          Pools(providers[i])[a].name != Pools(providers[i])[b].name)
    && (forall i, j, name :: 0 <= i < j < |providers| ==> !(Uses(providers[i], name) && Uses(providers[j], name)))
  }

  lemma {:induction false} DistinctSum(a: seq<string>, b: seq<string>)
    ensures Distinct(a + b) <==> Distinct(a) && Distinct(b) && forall x :: !(x in a && x in b)
  {
    var s := a + b;
    assert forall i :: 0 <= i < |a| ==> s[i] == a[i];
    assert forall j :: 0 <= j < |b| ==> s[|a| + j] == b[j];
    if Distinct(s) {
      assert Distinct(a);
      forall i, j | 0 <= i < j < |b| ensures b[i] != b[j] { assert s[|a| + i] != s[|a| + j]; }
    } else {
      var i, j :| 0 <= i < j < |s| && s[i] == s[j];
      if i < |a| <= j {
        assert s[i] in a && b[j - |a|] == s[i];
      } else if |a| <= i {
        assert b[i - |a|] == b[j - |a|];
      }
    }
  }

  lemma {:induction false} PoolNamesAt(p: Provider)
    ensures PoolNames(p) == Names(Pools(p))
    ensures Distinct(PoolNames(p)) <==>
              forall a, b :: 0 <= a < b < |Pools(p)| ==> Pools(p)[a].name != Pools(p)[b].name
    ensures forall x :: x in PoolNames(p) <==> Uses(p, x)
  {
    assert forall a :: 0 <= a < |Pools(p)| ==> PoolNames(p)[a] == Pools(p)[a].name;
  }

  lemma {:induction false} InAllNames(providers: seq<Provider>, x: string)
    ensures x in AllNames(providers) <==> exists i :: 0 <= i < |providers| && Uses(providers[i], x)
  {
    if providers != [] {
      var n := |providers| - 1;
      InAllNames(providers[..n], x);
      PoolNamesAt(providers[n]);
      assert forall i :: 0 <= i < n ==> providers[..n][i] == providers[i];
    }
  }

  lemma {:induction false} OwnNamesMore(before: seq<Provider>, p: Provider)
    ensures OwnNames(before + [p]) <==>
              && OwnNames(before)
              && (forall a, b :: 0 <= a < b < |Pools(p)| ==> Pools(p)[a].name != Pools(p)[b].name)
              && forall i, name :: 0 <= i < |before| ==> !(Uses(before[i], name) && Uses(p, name))
  {
    var all := before + [p];
    assert all[|before|] == p && forall i :: 0 <= i < |before| ==> all[i] == before[i];
  }

  /** The names are distinct exactly when every pool, static or dynamic, of whatever provider, has one of its own. */
  lemma {:induction false} DistinctIsOwnNames(providers: seq<Provider>)
    ensures Distinct(AllNames(providers)) <==> OwnNames(providers)
  {
    if providers != [] {
      var before, p := providers[..|providers| - 1], providers[|providers| - 1];
      DistinctIsOwnNames(before);
      DistinctSum(AllNames(before), PoolNames(p));
      PoolNamesAt(p);
      assert providers == before + [p];
      OwnNamesMore(before, p);
      forall x ensures x in AllNames(before) <==> exists i :: 0 <= i < |before| && Uses(before[i], x) {
        InAllNames(before, x);
      }
    }
  }
}
