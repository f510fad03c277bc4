// pkg/helm/secrets.go: choosing the newest Helm release among the release Secrets, in whatever order they arrive.
module HelmReleases {
  import opened Common

  datatype Release = Release(name: string, namespace: string, version: int, hasMetadata: bool, status: string)

  // A Secret that does not decode is None.
  type Raw = Option<Release>

  predicate Eligible(raw: Raw) {
    raw.Some? && raw.value.hasMetadata && raw.value.status != "superseded" && raw.value.status != "uninstalled"
  }

  predicate SameName(a: Release, b: Release) {
    a.name == b.name && a.namespace == b.namespace
  }

  predicate Supersedes(r: Release, earlier: Release) {
    SameName(r, earlier) && earlier.version < r.version
  }

  // The first entry that r supersedes, or the length.
  function Superseded(results: seq<Release>, r: Release): (i: nat)
    ensures i <= |results| && (i < |results| ==> Supersedes(r, results[i]))
    ensures forall j :: 0 <= j < i ==> !Supersedes(r, results[j])
  {
    if results == [] then 0
    else if Supersedes(r, results[0]) then 0
    else
      var i := 1 + Superseded(results[1..], r);
      assert forall j :: 1 <= j < i ==> results[j] == results[1..][j - 1];
      i
  }

  function Insert(results: seq<Release>, r: Release): seq<Release> {
    var i := Superseded(results, r);
    if i < |results| then results[i := r] else results + [r]
  }

  function Results(items: seq<Raw>): seq<Release> {
    if items == [] then []
    else
      var before, last := Results(items[..|items| - 1]), items[|items| - 1];
      if Eligible(last) then Insert(before, last.value) else before
  }

  method List(items: seq<Raw>) returns (results: seq<Release>)
    ensures results == Results(items)
  {
    results := [];
    for n := 0 to |items|
      invariant results == Results(items[..n])
    {
      assert items[..n + 1][..n] == items[..n];
      if items[n].None? {
        continue;
      }
      var r := items[n].value;
      if !r.hasMetadata {
        continue;
      }
      if r.status == "superseded" || r.status == "uninstalled" {
        continue;
      }
      var found, i := false, 0;
      while i < |results|
        invariant i <= |results| && !found
        invariant forall j :: 0 <= j < i ==> !Supersedes(r, results[j])
        invariant results == Results(items[..n])
      {
        if results[i].name == r.name && results[i].namespace == r.namespace && results[i].version < r.version {
          SupersededAt(results, r, i);
          results := results[i := r];
          found := true;
          break;
        }
        i := i + 1;
      }
      if !found {
        SupersededAt(results, r, i);
        results := results + [r];
      }
    }
    assert items[..|items|] == items;
  }

  lemma {:induction false} SupersededAt(results: seq<Release>, r: Release, i: nat)
    requires i <= |results| && (i < |results| ==> Supersedes(r, results[i]))
    requires forall j :: 0 <= j < i ==> !Supersedes(r, results[j])
    ensures Superseded(results, r) == i
  {
    var k := Superseded(results, r);
    if k < i {
    } else if i < k {
    }
  }

  // ---- what the list keeps ----

  ghost predicate Sound(items: seq<Raw>, results: seq<Release>) {
    forall i :: 0 <= i < |results| ==> Some(results[i]) in items && Eligible(Some(results[i]))
  }

  ghost predicate Dominated(results: seq<Release>, r: Release) {
    exists i :: 0 <= i < |results| && SameName(results[i], r) && r.version <= results[i].version
  }

  lemma {:induction false} InsertDominates(results: seq<Release>, r: Release, q: Release)
    requires Dominated(results, q) || q == r
    ensures Dominated(Insert(results, r), q)
  {
    var k, after := Superseded(results, r), Insert(results, r);
    if q == r {
      assert after[if k < |results| then k else |results|] == r;
    } else {
      var i :| 0 <= i < |results| && SameName(results[i], q) && q.version <= results[i].version;
      assert after[i] == if i == k then r else results[i];
    }
  }

  /** Nothing is invented, and each eligible release has a representative of its name that is at least as new. */
  lemma {:induction false} ListIsSoundAndDominates(items: seq<Raw>)
    ensures Sound(items, Results(items))
    ensures forall n :: 0 <= n < |items| && Eligible(items[n]) ==> Dominated(Results(items), items[n].value)
  {
    if items != [] {
      var before, last := items[..|items| - 1], items[|items| - 1];
      ListIsSoundAndDominates(before);
      assert forall raw :: raw in before ==> raw in items;
      if Eligible(last) {
        forall n | 0 <= n < |items| && Eligible(items[n]) ensures Dominated(Results(items), items[n].value) {
          if n < |before| { assert items[n] == before[n]; }
          InsertDominates(Results(before), last.value, items[n].value);
        }
      } else {
        assert forall n :: 0 <= n < |items| && Eligible(items[n]) ==> n < |before| && items[n] == before[n];
      }
    }
  }

  /** Get: the newest eligible release of all, or not found exactly when there is none. */
  method Get(items: seq<Raw>) returns (latest: Option<Release>)
    ensures latest.None? <==> forall n :: 0 <= n < |items| ==> !Eligible(items[n])
    ensures latest.Some? ==>
              && latest in items && latest.value.hasMetadata
              && latest.value.status != "superseded" && latest.value.status != "uninstalled"
    ensures forall n :: 0 <= n < |items| && items[n].Some? && items[n].value.hasMetadata ==>
              || items[n].value.status == "superseded" || items[n].value.status == "uninstalled"
              || (latest.Some? && items[n].value.version <= latest.value.version)
  {
    var list := List(items);
    ListIsSoundAndDominates(items);
    if |list| == 0 {
      return None;
    }
    latest := None;
    for i := 0 to |list|
      invariant latest.None? <==> i == 0
      invariant latest.Some? ==> latest.value in list
      invariant latest.Some? ==> forall j :: 0 <= j < i ==> list[j].version <= latest.value.version
    {
      if latest.None? || latest.value.version < list[i].version {
        latest := Some(list[i]);
      }
    }
    assert Eligible(latest) && latest in items;
    forall n | 0 <= n < |items| && Eligible(items[n]) ensures items[n].value.version <= latest.value.version {
      assert Dominated(list, items[n].value);
    }
  }

  // ---- when a name is listed once ----

  ghost predicate Unique(results: seq<Release>) {
    forall i, j :: 0 <= i < j < |results| ==> !SameName(results[i], results[j])
  }

  // Each eligible release is newer than every earlier one of its name.
  ghost predicate ArrivesInOrder(items: seq<Raw>) {
    forall m, n ::
      (0 <= m < n < |items| && Eligible(items[m]) && Eligible(items[n]) && SameName(items[m].value, items[n].value))
      ==> items[m].value.version < items[n].value.version
  }

  ghost predicate NewerThanAll(results: seq<Release>, r: Release) {
    forall i :: 0 <= i < |results| && SameName(results[i], r) ==> results[i].version < r.version
  }

  lemma {:induction false} InsertUniqueIff(results: seq<Release>, r: Release)
    ensures Unique(Insert(results, r)) <==> Unique(results) && NewerThanAll(results, r)
  {
    var k, after := Superseded(results, r), Insert(results, r);
    if k == |results| {
      assert forall i :: 0 <= i < |results| ==> after[i] == results[i];
      assert after[k] == r;
    } else {
      assert forall i :: 0 <= i < |results| && i != k ==> after[i] == results[i];
      assert after[k] == r && SameName(results[k], r);
      assert Unique(after) <==> Unique(results) by {
        assert forall i, j :: 0 <= i < j < |results| ==>
            (SameName(after[i], after[j]) <==> SameName(results[i], results[j]));
      }
      if Unique(results) {
        forall i | 0 <= i < |results| && SameName(results[i], r) ensures results[i].version < r.version {
          if i < k {
          } else if k < i {
          }
        }
      }
    }
  }

  /** The list holds each name once exactly when versions arrive in increasing order: an older version that arrives
      later is appended beside the newer one. */
  lemma {:induction false} ListIsUniqueIff(items: seq<Raw>)
    ensures Unique(Results(items)) <==> ArrivesInOrder(items)
  {
    if items != [] {
      var before, last := items[..|items| - 1], items[|items| - 1];
      ListIsUniqueIff(before);
      if Eligible(last) {
        InsertUniqueIff(Results(before), last.value);
        NewerThanResultsIff(before, last.value);
        InOrderIff(items, before, last);
      } else {
        IneligibleIsIgnored(items, before, last);
      }
    }
  }

  lemma {:induction false} NewerThanResultsIff(items: seq<Raw>, r: Release)
    ensures NewerThanAll(Results(items), r) <==>
              forall n :: 0 <= n < |items| && Eligible(items[n]) && SameName(items[n].value, r) ==>
                  items[n].value.version < r.version
  {
    ListIsSoundAndDominates(items);
    var results := Results(items);
    if NewerThanAll(results, r) {
      forall n | 0 <= n < |items| && Eligible(items[n]) && SameName(items[n].value, r)
          ensures items[n].value.version < r.version {
        assert Dominated(results, items[n].value);
      }
    } else {
      var i :| 0 <= i < |results| && SameName(results[i], r) && results[i].version >= r.version;
      assert Some(results[i]) in items;
    }
  }

  lemma {:induction false} IneligibleIsIgnored(items: seq<Raw>, before: seq<Raw>, last: Raw)
    requires items == before + [last] && !Eligible(last)
    ensures ArrivesInOrder(items) <==> ArrivesInOrder(before)
  {
    assert forall n :: 0 <= n < |before| ==> items[n] == before[n];
  }

  lemma {:induction false} InOrderIff(items: seq<Raw>, before: seq<Raw>, last: Raw)
    requires items == before + [last] && Eligible(last)
    ensures ArrivesInOrder(items) <==>
              && ArrivesInOrder(before)
              && forall n :: 0 <= n < |before| && Eligible(before[n]) && SameName(before[n].value, last.value) ==>
                   before[n].value.version < last.value.version
  {
    assert forall n :: 0 <= n < |before| ==> items[n] == before[n];
    assert items[|before|] == last;
  }
}
