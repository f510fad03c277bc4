// Listing a prefix: one request, or pages pinned to the revision of the first one.
module EtcdList {
  import opened Keys
  import opened EtcdStore
  import opened EtcdClient

  // ---- a set of keys in ascending order ----

  ghost predicate Ascending(keys: seq<Key>) {
    forall i, j :: 0 <= i < j < |keys| ==> Less(keys[i], keys[j])
  }

  ghost predicate IsLeast(m: Key, keys: set<Key>) {
    m in keys && forall k :: k in keys && k != m ==> Less(m, k)
  }

  lemma {:induction false} Least(keys: set<Key>) returns (m: Key)
    requires keys != {}
    ensures IsLeast(m, keys)
  {
    var x :| x in keys;
    var rest := keys - {x};
    assert forall k :: k in keys ==> k == x || k in rest;
    m := x;
    if rest != {} {
      var n := Least(rest);
      LessTotal(x, n);
      if Less(n, x) {
        m := n;
      } else {
        forall k | k in rest ensures Less(x, k) { if k != n { LessTransitive(x, n, k); } }
      }
    }
  }

  lemma {:induction false} LeastExists(keys: set<Key>)
    requires keys != {}
    ensures exists m :: IsLeast(m, keys)
  {
    var m := Least(keys);
  }

  ghost function Sorted(keys: set<Key>): seq<Key> {
    if keys == {} then []
    else
      LeastExists(keys);
      var m :| IsLeast(m, keys);
      [m] + Sorted(keys - {m})
  }

  lemma {:induction false} SortedIsAscending(keys: set<Key>)
    ensures Ascending(Sorted(keys))
    ensures forall k :: k in Sorted(keys) <==> k in keys
  {
    if keys != {} {
      LeastExists(keys);
      var m := Sorted(keys)[0];
      var rest := Sorted(keys - {m});
      SortedIsAscending(keys - {m});
      assert Sorted(keys) == [m] + rest && IsLeast(m, keys);
      assert forall i :: 0 <= i < |rest| ==> rest[i] in keys && rest[i] != m;
    }
  }

  lemma {:induction false} AscendingUnique(a: seq<Key>, b: seq<Key>)
    requires Ascending(a) && Ascending(b)
    requires forall k :: k in a <==> k in b
    ensures a == b
  {
    assert a != [] ==> a[0] in b;
    assert b != [] ==> b[0] in a;
    if a != [] {
      assert a[0] == b[0] by {
        var i :| 0 <= i < |b| && b[i] == a[0];
        var j :| 0 <= j < |a| && a[j] == b[0];
        if i > 0 && j > 0 { LessTransitive(a[0], a[j], a[0]); LessIrreflexive(a[0]); }
      }
      forall k ensures k in a[1..] <==> k in b[1..] { TailMembers(a, k); TailMembers(b, k); }
      AscendingUnique(a[1..], b[1..]);
      assert a == [a[0]] + a[1..] && b == [b[0]] + b[1..];
    }
  }

  lemma {:induction false} TailMembers(a: seq<Key>, k: Key)
    requires a != [] && Ascending(a)
    ensures k in a[1..] <==> k in a && k != a[0]
  {
    LessIrreflexive(a[0]);
    assert forall i :: 1 <= i < |a| ==> a[i] == a[1..][i - 1];
  }

  /** The keys above the p-th smallest are what follows it in the sorted order. */
  lemma {:induction false} SortedAfter(keys: set<Key>, above: set<Key>, p: nat)
    requires 0 < p <= |Sorted(keys)|
    requires forall k :: k in above <==> k in keys && Less(Sorted(keys)[p - 1], k)
    ensures Sorted(above) == Sorted(keys)[p..]
  {
    var all := Sorted(keys);
    SortedIsAscending(keys);
    SortedIsAscending(above);
    forall k ensures k in all[p..] <==> k in above {
      if k in all {
        var i :| 0 <= i < |all| && all[i] == k;
        CutMembers(all, p, i);
      }
    }
    AscendingUnique(Sorted(above), all[p..]);
  }

  lemma {:induction false} CutMembers(all: seq<Key>, p: nat, i: nat)
    requires Ascending(all) && 0 < p <= |all| && i < |all|
    ensures all[i] in all[p..] <==> i >= p
    ensures Less(all[p - 1], all[i]) <==> i >= p
  {
    LessIrreflexive(all[i]);
    if i < p {
      if i < p - 1 && Less(all[p - 1], all[i]) { LessTransitive(all[i], all[p - 1], all[i]); }
      assert forall j :: p <= j < |all| ==> Less(all[i], all[j]);
    } else {
      assert all[p..][i - p] == all[i];
    }
  }

  // ---- the answer of a range request ----

  ghost function KeysIn(snap: Snapshot, start: Key, end: Key): set<Key> {
    set k | k in snap && InRange(k, start, end)
  }

  function Row(snap: Snapshot, k: Key): Value {
    if k in snap then Value(k, snap[k].data, snap[k].modified) else Value(k, [], 0)
  }

  function Rows(snap: Snapshot, keys: seq<Key>): (rows: seq<Value>)
    ensures |rows| == |keys|
  {
    seq(|keys|, i requires 0 <= i < |keys| => Row(snap, keys[i]))
  }

  // The one-shot List at a snapshot: every key with the prefix, ascending.
  ghost function Listing(snap: Snapshot, prefix: Key): seq<Value> {
    Rows(snap, ListedKeys(snap, prefix))
  }

  ghost function ListedKeys(snap: Snapshot, prefix: Key): seq<Key> {
    Sorted(set k | k in snap && prefix <= k)
  }

  /** The listing holds every key with the prefix once, in strictly ascending order, with its stored data. */
  lemma {:induction false} ListingIsExact(snap: Snapshot, prefix: Key)
    ensures var rows := Listing(snap, prefix);
            && (forall i, j :: 0 <= i < j < |rows| ==> Less(rows[i].key, rows[j].key))
            && (forall i :: 0 <= i < |rows| ==>
                  && rows[i].key in snap && prefix <= rows[i].key
                  && rows[i].data == snap[rows[i].key].data && rows[i].modified == snap[rows[i].key].modified)
            && (forall k :: k in snap && prefix <= k ==> exists i :: 0 <= i < |rows| && rows[i].key == k)
  {
    var keys, rows := ListedKeys(snap, prefix), Listing(snap, prefix);
    SortedIsAscending(set k | k in snap && prefix <= k);
    assert forall i :: 0 <= i < |keys| ==> keys[i] in keys && rows[i].key == keys[i];
    forall k | k in snap && prefix <= k ensures exists i :: 0 <= i < |rows| && rows[i].key == k {
      assert k in keys;
    }
  }

  datatype Reply =
    | Page(kvs: seq<Value>, more: bool, header: nat)
    | Failed

  const PAGE_LIMIT := 1000

  // What the server may answer to a range request (rev 0 reads the current revision): at most limit rows
  // from the front of the range, at least one when there is one, and more exactly when rows are left.
  // Any request may fail; one without a start key or at a future revision always does.
  ghost predicate Answers(s: Server, start: Key, end: Key, rev: nat, limit: nat, reply: Reply)
    requires Valid(s)
  {
    reply.Page? ==>
      var at := if rev == 0 then Rev(s) else rev;
      && start != []
      && at <= Rev(s)
      && reply.header == Rev(s)
      && var all := Sorted(KeysIn(s.log[at], start, end));
         && |reply.kvs| <= limit && |reply.kvs| <= |all|
         && (all != [] && limit > 0 ==> reply.kvs != [])
         && reply.kvs == Rows(s.log[at], all[..|reply.kvs|])
         && reply.more == (|reply.kvs| < |all|)
  }

  // The server when the n-th request of a stream arrives: others[m] are the writes before request m.
  ghost function ServerAt(s: Server, others: nat -> seq<Step>, n: nat): (t: Server)
    requires Valid(s)
    ensures Valid(t)
    ensures s.log <= t.log
  {
    var before := if n == 0 then s else ServerAt(s, others, n - 1);
    Run(before, others(n))
  }

  lemma {:induction false} SnapshotsStay(s: Server, others: nat -> seq<Step>, n: nat)
    requires Valid(s)
    ensures ServerAt(s, others, 0).log <= ServerAt(s, others, n).log
  {
    if n > 0 { SnapshotsStay(s, others, n - 1); }
  }

  datatype Emission = Item(value: Value) | Broken

  function Items(rows: seq<Value>): (out: seq<Emission>)
    ensures |out| == |rows|
  {
    seq(|rows|, i requires 0 <= i < |rows| => Item(rows[i]))
  }

  // The n-th request for (start, end, rev) is answered by get(n, start, end, rev).
  type GetFn = (nat, Key, Key, nat) -> Reply

  ghost predicate Serves(get: GetFn, s: Server, others: nat -> seq<Step>)
    requires Valid(s)
  {
    forall n: nat, start: Key, end: Key, rev: nat ::
      Answers(ServerAt(s, others, n), start, end, rev, PAGE_LIMIT, get(n, start, end, rev))
  }

  // What is left of a prefix once every key below startKey was sent.
  ghost predicate Remaining(snap: Snapshot, prefix: Key, startKey: Key, rest: seq<Key>) {
    Sorted(KeysIn(snap, startKey, RangeEnd(prefix))) == rest
  }

  lemma {:induction false} RemainingAtStart(snap: Snapshot, prefix: Key)
    ensures Remaining(snap, prefix, prefix, ListedKeys(snap, prefix))
  {
    forall k | k in snap ensures InRange(k, prefix, RangeEnd(prefix)) <==> prefix <= k { RangeIsPrefix(prefix, k); }
    assert KeysIn(snap, prefix, RangeEnd(prefix)) == set k | k in snap && prefix <= k;
  }

  lemma {:induction false} RemainingAfterPage(snap: Snapshot, prefix: Key, startKey: Key, rest: seq<Key>, p: nat,
                                              next: Key)
    requires Remaining(snap, prefix, startKey, rest) && 0 < p <= |rest|
    requires next == rest[p - 1] + [0]
    ensures Remaining(snap, prefix, next, rest[p..])
  {
    var end := RangeEnd(prefix);
    var last := rest[p - 1];
    SortedIsAscending(KeysIn(snap, startKey, end));
    forall k | k in snap
      ensures InRange(k, next, end) <==> InRange(k, startKey, end) && Less(last, k)
    {
      assert last in rest && InRange(last, startKey, end);
      NextKeyIsLeast(last, k);
      if Less(last, k) && startKey != last { LessTransitive(startKey, last, k); }
    }
    SortedAfter(KeysIn(snap, startKey, end), KeysIn(snap, next, end), p);
  }

  lemma {:induction false} RowsSlice(snap: Snapshot, keys: seq<Key>, a: nat, b: nat)
    requires a <= b <= |keys|
    ensures Rows(snap, keys[a..][..b - a]) == Rows(snap, keys)[a..b]
  {
  }

  ghost predicate IsSlice(part: seq<Value>, whole: seq<Value>, at: nat) {
    at + |part| <= |whole| && part == whole[at..at + |part|]
  }

  // What one page is, in terms of the listing at the pinned revision.
  lemma {:induction false} PageOfListing(first: Server, now: Server, prefix: Key, startKey: Key, rev: nat, sent: nat,
                                         resp: Reply)
    requires Valid(first) && Valid(now) && first.log <= now.log
    requires rev == Rev(first) || (rev == 0 && now == first)
    requires sent <= |ListedKeys(Current(first), prefix)|
    requires Remaining(Current(first), prefix, startKey, ListedKeys(Current(first), prefix)[sent..])
    requires Answers(now, startKey, RangeEnd(prefix), rev, PAGE_LIMIT, resp) && resp.Page?
    ensures IsSlice(resp.kvs, Listing(Current(first), prefix), sent)
    ensures resp.kvs == [] ==> sent == |Listing(Current(first), prefix)|
    ensures resp.more <==> sent + |resp.kvs| < |Listing(Current(first), prefix)|
    ensures rev == 0 ==> resp.header == Rev(first)
  {
    var snap := Current(first);
    var keys := ListedKeys(snap, prefix);
    var at := if rev == 0 then Rev(now) else rev;
    assert now.log[at] == snap;
    var all := Sorted(KeysIn(snap, startKey, RangeEnd(prefix)));
    assert all == keys[sent..];
    RowsSlice(snap, keys, sent, sent + |resp.kvs|);
  }

  // Between two pages: sent rows of the listing are out, and the rest is what startKey begins.
  ghost predicate Progress(snap: Snapshot, prefix: Key, startKey: Key, sent: nat, out: seq<Emission>) {
    && IsPrefixOf(out, Listing(snap, prefix), sent)
    && Remaining(snap, prefix, startKey, ListedKeys(snap, prefix)[sent..])
  }

  ghost predicate IsPrefixOf(out: seq<Emission>, listing: seq<Value>, sent: nat) {
    sent <= |listing| && out == Items(listing[..sent])
  }

  lemma {:induction false} ProgressAtStart(snap: Snapshot, prefix: Key)
    ensures Progress(snap, prefix, prefix, 0, [])
  {
    var keys := ListedKeys(snap, prefix);
    RemainingAtStart(snap, prefix);
    assert keys[0..] == keys;
  }

  lemma {:induction false} ItemsAppend(out: seq<Emission>, listing: seq<Value>, sent: nat, kvs: seq<Value>)
    requires IsPrefixOf(out, listing, sent) && IsSlice(kvs, listing, sent)
    ensures IsPrefixOf(out + Items(kvs), listing, sent + |kvs|)
  {
    assert listing[..sent] + kvs == listing[..sent + |kvs|];
  }

  lemma {:induction false} ProgressAfterPage(snap: Snapshot, prefix: Key, startKey: Key, sent: nat,
                                             out: seq<Emission>, kvs: seq<Value>, next: Key)
    requires Progress(snap, prefix, startKey, sent, out)
    requires kvs != [] && IsSlice(kvs, Listing(snap, prefix), sent)
    requires next == kvs[|kvs| - 1].key + [0]
    ensures Progress(snap, prefix, next, sent + |kvs|, out + Items(kvs))
  {
    var keys, p := ListedKeys(snap, prefix), |kvs|;
    ItemsAppend(out, Listing(snap, prefix), sent, kvs);
    assert kvs[p - 1].key == keys[sent..][p - 1];
    RemainingAfterPage(snap, prefix, startKey, keys[sent..], p, next);
    assert keys[sent..][p..] == keys[sent + p..];
  }

  // The stream ended without an error, or was cut short by one.
  ghost predicate Complete(out: seq<Emission>, listing: seq<Value>) {
    out == Items(listing)
  }

  ghost predicate CutShort(out: seq<Emission>, listing: seq<Value>) {
    exists n :: 0 <= n <= |listing| && (n > 0 ==> n < |listing|) && out == Items(listing[..n]) + [Broken]
  }

  lemma {:induction false} Ends(listing: seq<Value>, sent: nat, out: seq<Emission>)
    requires IsPrefixOf(out, listing, sent)
    ensures sent == |listing| ==> Complete(out, listing)
    ensures sent == 0 || sent < |listing| ==> CutShort(out + [Broken], listing)
  {
    assert listing[..|listing|] == listing;
  }

  // A page that continues the listing after sent rows.
  ghost predicate Continues(resp: Reply, listing: seq<Value>, sent: nat) {
    resp.Page? ==>
      && IsSlice(resp.kvs, listing, sent)
      && (resp.kvs == [] ==> sent == |listing|)
      && (resp.more <==> sent + |resp.kvs| < |listing|)
  }

  // The n-th request, made after sent rows, continues the listing.
  ghost predicate RequestContinues(get: GetFn, snap: Snapshot, prefix: Key, pinned: nat, n: nat, start: Key, rev: nat,
                                   sent: nat) {
    && sent <= |ListedKeys(snap, prefix)| && Remaining(snap, prefix, start, ListedKeys(snap, prefix)[sent..])
    && (rev == pinned || (rev == 0 && n == 0))
    ==> Continues(get(n, start, RangeEnd(prefix), rev), Listing(snap, prefix), sent)
  }

  // Every request of the stream is answered from the listing at the pinned revision, which the first answer names.
  ghost predicate Streams(get: GetFn, snap: Snapshot, prefix: Key, pinned: nat) {
    && (forall n: nat, start: Key, rev: nat, sent: nat ::
          RequestContinues(get, snap, prefix, pinned, n, start, rev, sent))
    && (get(0, prefix, RangeEnd(prefix), 0).Page? ==>
          prefix != [] && get(0, prefix, RangeEnd(prefix), 0).header == pinned)
  }

  // One request of the stream, answered by a server that moved on since the first page.
  lemma {:induction false} OnePage(get: GetFn, s: Server, others: nat -> seq<Step>, prefix: Key, startKey: Key,
                                   n: nat, rev: nat, sent: nat)
    requires Valid(s) && Serves(get, s, others)
    requires sent <= |ListedKeys(Current(ServerAt(s, others, 0)), prefix)|
    requires Remaining(Current(ServerAt(s, others, 0)), prefix, startKey,
        ListedKeys(Current(ServerAt(s, others, 0)), prefix)[sent..])
    requires rev == Rev(ServerAt(s, others, 0)) || (rev == 0 && n == 0)
    ensures Continues(get(n, startKey, RangeEnd(prefix), rev), Listing(Current(ServerAt(s, others, 0)), prefix), sent)
  {
    SnapshotsStay(s, others, n);
    var resp := get(n, startKey, RangeEnd(prefix), rev);
    assert Answers(ServerAt(s, others, n), startKey, RangeEnd(prefix), rev, PAGE_LIMIT, resp);
    if resp.Page? {
      PageOfListing(ServerAt(s, others, 0), ServerAt(s, others, n), prefix, startKey, rev, sent, resp);
    }
  }

  lemma {:induction false} ServerStreams(get: GetFn, s: Server, others: nat -> seq<Step>, prefix: Key)
    requires Valid(s) && Serves(get, s, others)
    ensures Streams(get, Current(ServerAt(s, others, 0)), prefix, Rev(ServerAt(s, others, 0)))
  {
    var snap, pinned := Current(ServerAt(s, others, 0)), Rev(ServerAt(s, others, 0));
    forall n: nat, start: Key, rev: nat, sent: nat
      ensures RequestContinues(get, snap, prefix, pinned, n, start, rev, sent)
    {
      if sent <= |ListedKeys(snap, prefix)| && Remaining(snap, prefix, start, ListedKeys(snap, prefix)[sent..])
         && (rev == pinned || (rev == 0 && n == 0)) {
        OnePage(get, s, others, prefix, start, n, rev, sent);
      }
    }
    assert Answers(ServerAt(s, others, 0), prefix, RangeEnd(prefix), 0, PAGE_LIMIT,
                   get(0, prefix, RangeEnd(prefix), 0));
  }

  // Every request that names a start key and no revision after the pinned one is answered.
  ghost predicate NeverFails(get: GetFn, pinned: nat) {
    forall n: nat, start: Key, end: Key, rev: nat :: start != [] && rev <= pinned ==> get(n, start, end, rev).Page?
  }

  // What a server without faults answers.
  ghost function Faultless(s: Server, start: Key, end: Key, rev: nat, limit: nat): Reply
    requires Valid(s)
  {
    var at := if rev == 0 then Rev(s) else rev;
    if start == [] || at > Rev(s) then Failed
    else
      var all := Sorted(KeysIn(s.log[at], start, end));
      var n := if |all| < limit then |all| else limit;
      Page(Rows(s.log[at], all[..n]), n < |all|, Rev(s))
  }

  /** Such servers exist: for every history there is one that serves every request and never fails. */
  lemma {:induction false} FaultlessServer(s: Server, others: nat -> seq<Step>)
    requires Valid(s)
    ensures exists get: GetFn :: Serves(get, s, others) && NeverFails(get, Rev(ServerAt(s, others, 0)))
  {
    var get: GetFn := (n: nat, start: Key, end: Key, rev: nat) =>
      Faultless(ServerAt(s, others, n), start, end, rev, PAGE_LIMIT);
    forall n: nat, start: Key, end: Key, rev: nat
      ensures Answers(ServerAt(s, others, n), start, end, rev, PAGE_LIMIT, get(n, start, end, rev))
      ensures start != [] && rev <= Rev(ServerAt(s, others, 0)) ==> get(n, start, end, rev).Page?
    {
      SnapshotsStay(s, others, n);
    }
    assert Serves(get, s, others) && NeverFails(get, Rev(ServerAt(s, others, 0)));
  }

  method Send(chan: seq<Emission>, kvs: seq<Value>) returns (out: seq<Emission>)
    ensures out == chan + Items(kvs)
  {
    out := chan;
    for i := 0 to |kvs|
      invariant out == chan + Items(kvs[..i])
    {
      out := out + [Item(kvs[i])];
      assert kvs[..i + 1] == kvs[..i] + [kvs[i]];
    }
    assert kvs[..|kvs|] == kvs;
  }

  // One non-empty page: sends its rows and moves the start key past the last of them.
  method TakePage(chan: seq<Emission>, kvs: seq<Value>, ghost snap: Snapshot, ghost prefix: Key, ghost startKey: Key,
                  ghost sent: nat)
    returns (out: seq<Emission>, next: Key)
    requires Progress(snap, prefix, startKey, sent, chan)
    requires kvs != [] && IsSlice(kvs, Listing(snap, prefix), sent)
    ensures Progress(snap, prefix, next, sent + |kvs|, out)
    ensures next != []
  {
    out := Send(chan, kvs);
    next := NextStartKey(kvs[|kvs| - 1].key);
    ProgressAfterPage(snap, prefix, startKey, sent, chan, kvs, next);
  }

  /** listStream. For every server that answers range requests, every split into pages and every
      interleaving of other clients' writes between the pages: without a failed request the stream is the
      one-shot listing at the revision of the first request; with one it is a proper prefix of that
      listing followed by a single error. An empty prefix only yields the error. */
  method ListStream(prefix: Key, get: GetFn, ghost s: Server,
                    ghost others: nat -> seq<Step>) returns (out: seq<Emission>)
    requires Valid(s) && Serves(get, s, others)
    ensures var listing := Listing(Current(ServerAt(s, others, 0)), prefix);
            && (Complete(out, listing) || CutShort(out, listing))
            && (prefix != [] && NeverFails(get, Rev(ServerAt(s, others, 0))) ==> Complete(out, listing))
    ensures prefix == [] ==> out == [Broken]
  {
    ServerStreams(get, s, others, prefix);
    out := StreamPages(prefix, get, Current(ServerAt(s, others, 0)), Rev(ServerAt(s, others, 0)));
  }

  // The loop over pages.
  method StreamPages(prefix: Key, get: GetFn, ghost snap: Snapshot, ghost pinned: nat) returns (out: seq<Emission>)
    requires Streams(get, snap, prefix, pinned)
    ensures Complete(out, Listing(snap, prefix)) || CutShort(out, Listing(snap, prefix))
    ensures prefix != [] && NeverFails(get, pinned) ==> Complete(out, Listing(snap, prefix))
    ensures prefix == [] ==> out == [Broken]
  {
    ghost var listing := Listing(snap, prefix);
    ghost var sent := 0;

    out := [];
    var calls := 0;
    var revision, first := 0, true;
    var rangeEnd := GetPrefixRangeEnd(prefix);
    var startKey := prefix;
    ProgressAtStart(snap, prefix);

    while true
      invariant first ==> calls == 0 && sent == 0 && startKey == prefix && out == []
      invariant !first ==> revision == pinned && startKey != [] && prefix != [] && sent < |listing|
      invariant Progress(snap, prefix, startKey, sent, out)
      decreases |listing| - sent
    {
      var rev := if first then 0 else revision;
      var resp := get(calls, startKey, rangeEnd, rev);
      assert RequestContinues(get, snap, prefix, pinned, calls, startKey, rev, sent);
      if resp.Failed? {
        Ends(listing, sent, out);
        out := out + [Broken];
        return;
      }
      if |resp.kvs| == 0 {
        Ends(listing, sent, out);
        return;
      }
      if first {
        revision, first := resp.header, false;
      }
      out, startKey := TakePage(out, resp.kvs, snap, prefix, startKey, sent);
      sent, calls := sent + |resp.kvs|, calls + 1;
      if !resp.more {
        Ends(listing, sent, out);
        return;
      }
    }
  }

  /** List: one request without a limit. WithPrefix turns the empty prefix into the range from 0x00. */
  method List(prefix: Key, get: (Key, Key) -> Reply, ghost s: Server) returns (vals: seq<Value>, err: Error)
    requires Valid(s)
    requires forall start: Key, end: Key ::
               && Answers(s, start, end, 0, |Current(s)|, get(start, end))
               && !(get(start, end).Page? && get(start, end).more)
    ensures err == Nil ==> vals == Listing(Current(s), prefix)
    ensures (forall start: Key, end: Key :: start != [] ==> get(start, end).Page?) ==> err == Nil
  {
    var key := prefix;
    var end := UNBOUNDED;
    if |prefix| == 0 {
      key := [0x00];
    } else {
      end := GetPrefixRangeEnd(prefix);
    }
    var resp := get(key, end);
    assert Answers(s, key, end, 0, |Current(s)|, resp);
    if resp.Failed? {
      return [], Unavailable;
    }
    vals := [];
    for i := 0 to |resp.kvs|
      invariant vals == resp.kvs[..i]
    {
      vals := vals + [Value(resp.kvs[i].key, resp.kvs[i].data, resp.kvs[i].modified)];
    }
    err := Nil;
    WholeRange(Current(s), prefix, key, end);
    var all := Sorted(KeysIn(Current(s), key, end));
    assert all[..|all|] == all;
  }

  lemma {:induction false} WholeRange(snap: Snapshot, prefix: Key, key: Key, end: Key)
    requires forall k :: k in snap ==> k != []
    requires if prefix == [] then key == [0x00] && end == UNBOUNDED else key == prefix && end == RangeEnd(prefix)
    ensures Sorted(KeysIn(snap, key, end)) == ListedKeys(snap, prefix)
  {
    forall k | k in snap ensures InRange(k, key, end) <==> prefix <= k {
      RangeIsPrefix(prefix, k);
      assert [] + [0x00] == [0x00];
      if prefix == [] { NextKeyIsLeast([], k); }
    }
    assert KeysIn(snap, key, end) == set k | k in snap && prefix <= k;
  }
}
