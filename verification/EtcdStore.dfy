// The etcd server as its clients see it: every revision keeps a snapshot, and each committed
// change appends one. Steps are the requests of pkg/etcd/client.go that change the server.
module EtcdStore {
  import opened Common
  import opened Keys

  type Bytes = seq<Byte>
  datatype Stored = Stored(data: Bytes, modified: nat)
  type Snapshot = map<Key, Stored>

  // log[r] is the store at revision r; a new cluster starts at revision 1.
  datatype Server = Server(log: seq<Snapshot>)

  datatype Step =
    | Cas(key: Key, expected: nat, data: Bytes)  // Txn: if ModRevision(key) == expected then Put
    | Remove(key: Key)                           // Txn: Get, Delete
    | RemovePrefix(prefix: Key)                  // Delete with prefix

  datatype Outcome =
    | Written(key: Key, rev: nat)
    | Erased(keys: set<Key>, rev: nat)
    | NoEffect

  const NewServer: Server := Server([map[], map[]])

  predicate Valid(s: Server) {
    && |s.log| >= 2
    && forall r, k :: 0 <= r < |s.log| && k in s.log[r] ==> k != [] && 1 < s.log[r][k].modified <= r
  }

  function Rev(s: Server): nat
    requires |s.log| > 0
  {
    |s.log| - 1
  }

  function Current(s: Server): Snapshot
    requires |s.log| > 0
  {
    s.log[|s.log| - 1]
  }

  function Lookup(s: Server, key: Key): Option<Stored>
    requires |s.log| > 0
  {
    if key in Current(s) then Some(Current(s)[key]) else None
  }

  // The ModRevision a transaction compares: 0 for a key that does not exist.
  function ModRevision(s: Server, key: Key): nat
    requires |s.log| > 0
  {
    if key in Current(s) then Current(s)[key].modified else 0
  }

  function Victims(s: Server, step: Step): set<Key>
    requires |s.log| > 0
  {
    match step
    case Cas(_, _, _) => {}
    case Remove(key) => set k | k in Current(s) && k == key
    case RemovePrefix(prefix) => set k | k in Current(s) && prefix <= k
  }

  // The empty key is rejected by the server.
  function Effect(s: Server, step: Step): (o: Outcome)
    requires |s.log| > 0
  {
    match step
    case Cas(key, expected, _) =>
      if key != [] && ModRevision(s, key) == expected then Written(key, Rev(s) + 1) else NoEffect
    case _ =>
      if Victims(s, step) != {} then Erased(Victims(s, step), Rev(s) + 1) else NoEffect
  }

  function Exec(s: Server, step: Step): (t: Server)
    requires Valid(s)
    ensures Valid(t)
    ensures s.log <= t.log
  {
    match Effect(s, step)
    case NoEffect => s
    case Written(key, rev) => Server(s.log + [Current(s)[key := Stored(step.data, rev)]])
    case Erased(keys, _) => Server(s.log + [Current(s) - keys])
  }

  function Run(s: Server, steps: seq<Step>): (t: Server)
    requires Valid(s)
    ensures Valid(t)
    ensures s.log <= t.log
  {
    if steps == [] then s else Exec(Run(s, steps[..|steps| - 1]), steps[|steps| - 1])
  }

  // What each step of a run did.
  function Trace(s: Server, steps: seq<Step>): (tr: seq<Outcome>)
    requires Valid(s)
    ensures |tr| == |steps|
  {
    if steps == [] then []
    else
      var before := steps[..|steps| - 1];
      Trace(s, before) + [Effect(Run(s, before), steps[|steps| - 1])]
  }

  lemma {:induction false} TraceAt(s: Server, steps: seq<Step>, i: nat)
    requires Valid(s) && i < |steps|
    ensures Trace(s, steps)[i] == Effect(Run(s, steps[..i]), steps[i])
    ensures Trace(s, steps)[..i] == Trace(s, steps[..i])
  {
    var n := |steps| - 1;
    var before := Trace(s, steps[..n]);
    var last := Effect(Run(s, steps[..n]), steps[n]);
    assert Trace(s, steps) == before + [last];
    if i < n {
      TraceAt(s, steps[..n], i);
      assert steps[..n][..i] == steps[..i];
      assert (before + [last])[..i] == before[..i];
    } else {
      assert (before + [last])[..i] == before;
    }
  }

  lemma {:induction false} RunGrows(s: Server, steps: seq<Step>, i: nat)
    requires Valid(s) && i <= |steps|
    ensures Run(s, steps[..i]).log <= Run(s, steps).log
  {
    if i < |steps| {
      RunGrows(s, steps[..|steps| - 1], i);
      assert steps[..|steps| - 1][..i] == steps[..i];
    } else {
      assert steps[..i] == steps;
    }
  }
}
