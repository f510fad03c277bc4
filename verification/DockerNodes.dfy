// pkg/cli/create_docker.go (ensureVClusterNodes, validateConfig and the container names) over a Docker daemon whose
// commands may fail.
module DockerNodes {
  import opened Common

  const NODE_PREFIX := "vcluster.node."

  // ---- names ----

  function Prefix(cluster: string): string {
    NODE_PREFIX + cluster + ['.']
  }

  function Worker(prefix: string, node: string): string {
    prefix + node
  }

  function Volume(prefix: string, node: string, volume: string): string {
    prefix + node + ['.'] + volume
  }

  predicate DotFree(s: string) {
    '.' !in s
  }

  // The keys of containerVolumes.
  const VOLUMES: set<string> := {"var", "etc", "bin", "cni-bin"}

  /** The worker prefix of one dot-free cluster never starts a worker name of another, so names are injective. */
  lemma {:induction false} NamesAreInjective(c: string, d: string, rest: string)
    requires DotFree(c) && DotFree(d) && Prefix(c) <= Prefix(d) + rest
    ensures c == d
  {
    var n, whole := |NODE_PREFIX|, Prefix(d) + rest;
    assert Prefix(c)[n..] == c + ['.'] && Prefix(d)[n..] == d + ['.'];
    FirstDot(c, d, whole[n..]);
  }

  /** In general the names of two clusters can collide exactly when one name is the other up to a dot, as with "a" and
      "a.b". */
  lemma {:induction false} NamesCollideIff(c: string, d: string)
    ensures (exists rest :: Prefix(c) <= Prefix(d) + rest) <==> c + ['.'] <= d + ['.'] || d + ['.'] <= c + ['.']
  {
    var n := |NODE_PREFIX|;
    assert Prefix(c)[n..] == c + ['.'] && Prefix(d)[n..] == d + ['.'];
    if rest :| Prefix(c) <= Prefix(d) + rest {
      var whole := Prefix(d) + rest;
      assert whole[n..] == d + ['.'] + rest && Prefix(c)[n..] <= whole[n..];
    }
    if c + ['.'] <= d + ['.'] {
      assert Prefix(c) <= Prefix(d) + "";
    } else if d + ['.'] <= c + ['.'] {
      var rest := (c + ['.'])[|d| + 1..];
      assert Prefix(d) + rest == Prefix(c);
    }
  }

  lemma {:induction false} FirstDot(c: string, d: string, s: string)
    requires DotFree(c) && DotFree(d) && c + ['.'] <= s && d + ['.'] <= s
    ensures c == d
  {
    assert s[|c|] == '.' && s[|d|] == '.';
    if |c| < |d| {
    } else if |d| < |c| {
    }
    assert c == s[..|c|] && d == s[..|d|];
  }

  /** A volume name tells the node and the volume apart, even when the node name has dots. */
  lemma {:induction false} VolumesAreInjective(prefix: string, m: string, v: string, n: string, w: string)
    requires DotFree(v) && DotFree(w) && Volume(prefix, m, v) == Volume(prefix, n, w)
    ensures m == n && v == w
  {
    var s := Volume(prefix, m, v);
    var i, j := |prefix + m|, |prefix + n|;
    assert s[i] == '.' && s[j] == '.' && s[i + 1..] == v && s[j + 1..] == w;
    if i < j {
    } else if j < i {
    }
    assert prefix + m == s[..i] && prefix + n == s[..j];
    assert m == s[..i][|prefix|..] && n == s[..j][|prefix|..];
  }

  lemma {:induction false} VolumesAreDotFree(v: string)
    requires v in VOLUMES
    ensures DotFree(v)
  {
  }

  // ---- sets of names ----

  function Workers(prefix: string, nodes: set<string>): set<string> {
    set n | n in nodes :: Worker(prefix, n)
  }

  function VolumesOf(prefix: string, nodes: set<string>): set<string> {
    set n, v | n in nodes && v in VOLUMES :: Volume(prefix, n, v)
  }

  // The nodes whose worker container exists.
  function NodesIn(prefix: string, containers: set<string>): set<string> {
    set c | c in containers && prefix <= c :: c[|prefix|..]
  }

  // Nothing changed but names of this cluster.
  ghost predicate Outside(prefix: string, before: set<string>, after: set<string>) {
    forall name :: !(prefix <= name) ==> (name in before <==> name in after)
  }

  // ---- commands ----

  // The commands of docker that may fail for reasons of their own.
  datatype Command =
    | List
    | Stop(name: string)
    | Remove(name: string)
    | RemoveVolume(name: string)
    | Start(name: string)
    | Join(name: string)

  predicate CanRemoveVolumes(prefix: string, node: string, vs: set<string>, failing: set<Command>,
                             volumes: set<string>) {
    forall v :: v in vs ==>
      Volume(prefix, node, v) in volumes && Command.RemoveVolume(Volume(prefix, node, v)) !in failing
  }

  // A node goes if it can be stopped and removed with all its volumes, which have to exist.
  predicate CanRemove(prefix: string, node: string, failing: set<Command>, containers: set<string>,
                      volumes: set<string>) {
    var name := Worker(prefix, node);
    && name in containers && Command.Stop(name) !in failing && Command.Remove(name) !in failing
    && CanRemoveVolumes(prefix, node, VOLUMES, failing, volumes)
  }

  // A node comes if it has a name, no container has that name yet, and it starts and joins.
  predicate CanAdd(prefix: string, node: string, failing: set<Command>, containers: set<string>) {
    var name := Worker(prefix, node);
    node != "" && name !in containers && Command.Start(name) !in failing && Command.Join(name) !in failing
  }

  // A missing node can be added, and is configured once.
  predicate CanAddAt(prefix: string, configured: seq<string>, i: nat, have: set<string>, failing: set<Command>,
                     containers: set<string>)
    requires i < |configured|
  {
    configured[i] in have ||
    (CanAdd(prefix, configured[i], failing, containers) && configured[i] !in ToSet(configured[..i]))
  }

  predicate CanAddAll(prefix: string, configured: seq<string>, have: set<string>, failing: set<Command>,
                      containers: set<string>) {
    forall i :: 0 <= i < |configured| ==> CanAddAt(prefix, configured, i, have, failing, containers)
  }

  // What the call needs in order to succeed.
  predicate Feasible(prefix: string, configured: seq<string>, hidden: set<string>, failing: set<Command>,
                     containers: set<string>, volumes: set<string>) {
    var have := NodesIn(prefix, containers - hidden);
    && List !in failing
    && (forall n :: n in have - ToSet(configured) ==> CanRemove(prefix, n, failing, containers, volumes))
    && CanAddAll(prefix, configured, have, failing, containers)
  }

  class Docker {
    var containers: set<string>
    var volumes: set<string>

    constructor (containers: set<string>, volumes: set<string>)
      ensures this.containers == containers && this.volumes == volumes
    {
      this.containers, this.volumes := containers, volumes;
    }

    // findDockerContainer: the nodes with a container, unless listing fails; those that cannot be inspected are
    // skipped.
    method Find(prefix: string, hidden: set<string>, failing: set<Command>) returns (ok: bool, nodes: seq<string>)
      ensures ok <==> List !in failing
      ensures ok ==> ToSet(nodes) == NodesIn(prefix, containers - hidden)
      ensures forall i, j :: 0 <= i < j < |nodes| ==> nodes[i] != nodes[j]
      ensures !ok ==> nodes == []
    {
      ok, nodes := List !in failing, [];
      if !ok {
        return;
      }
      var todo := containers;
      while todo != {}
        invariant todo <= containers
        invariant forall n :: n in nodes ==> prefix + n in containers - hidden && prefix + n !in todo
        invariant forall c :: c in containers - hidden && c !in todo && prefix <= c ==> c[|prefix|..] in nodes
        invariant forall i, j :: 0 <= i < j < |nodes| ==> nodes[i] != nodes[j]
        decreases |todo|
      {
        var c :| c in todo;
        if c !in hidden && prefix <= c {
          assert prefix + c[|prefix|..] == c;
          nodes := nodes + [c[|prefix|..]];
        }
        todo := todo - {c};
      }
      forall n ensures n in nodes <==> n in NodesIn(prefix, containers - hidden) {
        if n in nodes { assert (prefix + n)[|prefix|..] == n; }
      }
    }

    method Stop(name: string, failing: set<Command>) returns (ok: bool)
      ensures ok <==> name in containers && Command.Stop(name) !in failing
    {
      ok := name in containers && Command.Stop(name) !in failing;
    }

    method Remove(name: string, failing: set<Command>) returns (ok: bool)
      modifies this
      ensures volumes == old(volumes)
      ensures ok <==> name in old(containers) && Command.Remove(name) !in failing
      ensures containers == if ok then old(containers) - {name} else old(containers)
    {
      ok := name in containers && Command.Remove(name) !in failing;
      if ok {
        containers := containers - {name};
      }
    }

    method RemoveVolume(name: string, failing: set<Command>) returns (ok: bool)
      modifies this
      ensures containers == old(containers)
      ensures ok <==> name in old(volumes) && Command.RemoveVolume(name) !in failing
      ensures volumes == if ok then old(volumes) - {name} else old(volumes)
    {
      ok := name in volumes && Command.RemoveVolume(name) !in failing;
      if ok {
        volumes := volumes - {name};
      }
    }

    // docker run, which refuses a name in use; a run that fails leaves the containers in leftover and their volumes
    // behind.
    method Start(prefix: string, node: string, failing: set<Command>, leftover: set<string>) returns (ok: bool)
      modifies this
      ensures ok <==> Worker(prefix, node) !in old(containers) && Command.Start(Worker(prefix, node)) !in failing
      ensures ok ==> containers == old(containers) + {Worker(prefix, node)}
      ensures ok ==> volumes == old(volumes) + VolumesOf(prefix, {node})
      ensures Outside(prefix, old(containers), containers) && Outside(prefix, old(volumes), volumes)
    {
      VolumesStartWithPrefix(prefix, {node});
      var name := Worker(prefix, node);
      if name in containers {
        return false;
      }
      ok := Command.Start(name) !in failing;
      if ok || name in leftover {
        containers := containers + {name};
        volumes := volumes + VolumesOf(prefix, {node});
      }
    }

    method RemoveVolumes(prefix: string, node: string, failing: set<Command>) returns (ok: bool)
      modifies this
      ensures containers == old(containers) && Outside(prefix, old(volumes), volumes)
      ensures ok <==> CanRemoveVolumes(prefix, node, VOLUMES, failing, old(volumes))
      ensures ok ==> volumes == old(volumes) - VolumesOf(prefix, {node})
    {
      forall v | v in VOLUMES ensures DotFree(v) { VolumesAreDotFree(v); }
      TakenIsOurs(prefix, node, VOLUMES);
      TakenAll(prefix, node, VOLUMES);
      ok := RemoveEach(prefix, node, VOLUMES, failing);
    }

    // The loop over the volumes, in any order.
    method RemoveEach(prefix: string, node: string, vs: set<string>, failing: set<Command>) returns (ok: bool)
      requires forall v :: v in vs ==> DotFree(v)
      modifies this
      ensures containers == old(containers) && Outside(prefix, old(volumes), volumes)
      ensures ok <==> CanRemoveVolumes(prefix, node, vs, failing, old(volumes))
      ensures ok ==> volumes == old(volumes) - Taken(prefix, node, vs)
    {
      var todo := vs;
      while todo != {}
        invariant todo <= vs && containers == old(containers)
        invariant volumes == old(volumes) - Taken(prefix, node, vs - todo)
        invariant CanRemoveVolumes(prefix, node, vs - todo, failing, old(volumes))
        decreases |todo|
      {
        TakenIsOurs(prefix, node, vs - todo);
        var v :| v in todo;
        NotTaken(prefix, node, vs - todo, v);
        var done := RemoveVolume(Volume(prefix, node, v), failing);
        if !done {
          return false;
        }
        TakenMore(prefix, node, vs - todo, v);
        assert vs - (todo - {v}) == vs - todo + {v};
        todo := todo - {v};
      }
      assert vs - todo == vs;
      TakenIsOurs(prefix, node, vs);
      return true;
    }

    /** Makes this cluster's workers match the configuration exactly when that is feasible, and else fails; nothing of
        anyone else's is touched. */
    method EnsureVClusterNodes(cluster: string, configured: seq<string>, hidden: set<string>, failing: set<Command>,
                               leftover: set<string>)
      returns (ok: bool)
      modifies this
      ensures Outside(Prefix(cluster), old(containers), containers) && Outside(Prefix(cluster), old(volumes), volumes)
      ensures ok <==> Feasible(Prefix(cluster), configured, hidden, failing, old(containers), old(volumes))
      ensures ok ==>
                Reconciled(Prefix(cluster), ToSet(configured), hidden, old(containers), old(volumes),
                           containers, volumes)
    {
      var prefix := Prefix(cluster);
      var nodes;
      ok, nodes := Find(prefix, hidden, failing);
      if !ok {
        return;
      }
      ok := RemoveUnwanted(prefix, nodes, configured, failing);
      if !ok {
        return;
      }
      StillThere(prefix, ToSet(nodes) - ToSet(configured), configured, ToSet(nodes), failing, old(containers));
      if |configured| == 0 {
        assert ToSet(configured) == {};
        assert Workers(prefix, {}) == {} && VolumesOf(prefix, {}) == {};
        return;
      }
      ok := AddMissing(prefix, nodes, configured, failing, leftover);
    }

    method RemoveUnwanted(prefix: string, nodes: seq<string>, configured: seq<string>, failing: set<Command>)
      returns (ok: bool)
      requires forall i, j :: 0 <= i < j < |nodes| ==> nodes[i] != nodes[j]
      modifies this
      ensures Outside(prefix, old(containers), containers) && Outside(prefix, old(volumes), volumes)
      ensures ok <==>
                forall n :: n in ToSet(nodes) - ToSet(configured) ==>
                  CanRemove(prefix, n, failing, old(containers), old(volumes))
      ensures ok ==> containers == old(containers) - Workers(prefix, ToSet(nodes) - ToSet(configured))
      ensures ok ==> volumes == old(volumes) - VolumesOf(prefix, ToSet(nodes) - ToSet(configured))
    {
      ghost var done: set<string> := {};
      NoNames(prefix);
      for i := 0 to |nodes|
        invariant done == ToSet(nodes[..i]) - ToSet(configured)
        invariant containers == old(containers) - Workers(prefix, done)
        invariant volumes == old(volumes) - VolumesOf(prefix, done)
        invariant forall n :: n in done ==> CanRemove(prefix, n, failing, old(containers), old(volumes))
      {
        ToSetMore(nodes, i);
        WorkersStartWithPrefix(prefix, done);
        VolumesStartWithPrefix(prefix, done);
        if nodes[i] !in configured {
          assert nodes[i] !in nodes[..i] && nodes[i] in ToSet(nodes) - ToSet(configured);
          OthersRemoved(prefix, done, nodes[i], failing, old(containers), old(volumes));
          ok := RemoveNode(prefix, nodes[i], failing);
          NamesMore(prefix, done, nodes[i]);
          if !ok {
            return;
          }
          done := done + {nodes[i]};
        }
      }
      assert nodes[..|nodes|] == nodes;
      WorkersStartWithPrefix(prefix, done);
      VolumesStartWithPrefix(prefix, done);
      return true;
    }

    // One turn of that loop.
    method RemoveNode(prefix: string, node: string, failing: set<Command>) returns (ok: bool)
      modifies this
      ensures Outside(prefix, old(containers), containers) && Outside(prefix, old(volumes), volumes)
      ensures ok <==> CanRemove(prefix, node, failing, old(containers), old(volumes))
      ensures ok ==> containers == old(containers) - {Worker(prefix, node)}
      ensures ok ==> volumes == old(volumes) - VolumesOf(prefix, {node})
    {
      ok := Stop(Worker(prefix, node), failing);
      if !ok {
        return;
      }
      ok := Remove(Worker(prefix, node), failing);
      if !ok {
        return;
      }
      ok := RemoveVolumes(prefix, node, failing);
    }

    method AddMissing(prefix: string, nodes: seq<string>, configured: seq<string>, failing: set<Command>,
                      leftover: set<string>)
      returns (ok: bool)
      modifies this
      ensures Outside(prefix, old(containers), containers) && Outside(prefix, old(volumes), volumes)
      ensures ok <==> CanAddAll(prefix, configured, ToSet(nodes), failing, old(containers))
      ensures ok ==> containers == old(containers) + Workers(prefix, ToSet(configured) - ToSet(nodes))
      ensures ok ==> volumes == old(volumes) + VolumesOf(prefix, ToSet(configured) - ToSet(nodes))
    {
      NoNames(prefix);
      OutsideNothing(prefix, containers, volumes);
      assert ToSet(configured[..0]) - ToSet(nodes) == {};
      for i := 0 to |configured|
        invariant containers == old(containers) + Workers(prefix, ToSet(configured[..i]) - ToSet(nodes))
        invariant volumes == old(volumes) + VolumesOf(prefix, ToSet(configured[..i]) - ToSet(nodes))
        invariant Outside(prefix, old(containers), containers) && Outside(prefix, old(volumes), volumes)
        invariant forall j :: 0 <= j < i ==> CanAddAt(prefix, configured, j, ToSet(nodes), failing, old(containers))
      {
        ok := AddAt(prefix, configured, i, nodes, failing, leftover, old(containers), old(volumes));
        if !ok {
          return;
        }
      }
      assert configured[..|configured|] == configured;
      return true;
    }

    // One turn of that loop, which began with these containers and volumes.
    method AddAt(prefix: string, configured: seq<string>, i: nat, nodes: seq<string>, failing: set<Command>,
                 leftover: set<string>, ghost before: set<string>, ghost volumesBefore: set<string>)
      returns (ok: bool)
      requires i < |configured|
      requires containers == before + Workers(prefix, ToSet(configured[..i]) - ToSet(nodes))
      requires volumes == volumesBefore + VolumesOf(prefix, ToSet(configured[..i]) - ToSet(nodes))
      modifies this
      ensures Outside(prefix, old(containers), containers) && Outside(prefix, old(volumes), volumes)
      ensures ok <==> CanAddAt(prefix, configured, i, ToSet(nodes), failing, before)
      ensures ok ==> containers == before + Workers(prefix, ToSet(configured[..i + 1]) - ToSet(nodes))
      ensures ok ==> volumes == volumesBefore + VolumesOf(prefix, ToSet(configured[..i + 1]) - ToSet(nodes))
    {
      DoneMore(configured, i, ToSet(nodes));
      if configured[i] in nodes {
        return true;
      }
      OthersAdded(prefix, configured, i, ToSet(nodes), failing, before);
      AddedMore(prefix, before, volumesBefore, ToSet(configured[..i]) - ToSet(nodes), configured[i]);
      ok := AddNode(prefix, configured[i], failing, leftover);
    }

    method AddNode(prefix: string, node: string, failing: set<Command>, leftover: set<string>) returns (ok: bool)
      modifies this
      ensures Outside(prefix, old(containers), containers) && Outside(prefix, old(volumes), volumes)
      ensures ok <==> CanAdd(prefix, node, failing, old(containers))
      ensures ok ==> containers == old(containers) + {Worker(prefix, node)}
      ensures ok ==> volumes == old(volumes) + VolumesOf(prefix, {node})
    {
      if node == "" {
        return false;
      }
      ok := Start(prefix, node, failing, leftover);
      if !ok {
        return;
      }
      ok := Command.Join(Worker(prefix, node)) !in failing;
    }
  }

  // ---- bookkeeping of the loops ----

  function Taken(prefix: string, node: string, vs: set<string>): set<string> {
    set v | v in vs :: Volume(prefix, node, v)
  }

  lemma {:induction false} TakenMore(prefix: string, node: string, vs: set<string>, v: string)
    ensures Taken(prefix, node, vs + {v}) == Taken(prefix, node, vs) + {Volume(prefix, node, v)}
  {
  }

  lemma {:induction false} NotTaken(prefix: string, node: string, vs: set<string>, v: string)
    requires DotFree(v) && v !in vs && forall w :: w in vs ==> DotFree(w)
    ensures Volume(prefix, node, v) !in Taken(prefix, node, vs)
  {
    if Volume(prefix, node, v) in Taken(prefix, node, vs) {
      var w :| w in vs && Volume(prefix, node, w) == Volume(prefix, node, v);
      VolumesAreInjective(prefix, node, v, node, w);
    }
  }

  lemma {:induction false} TakenAll(prefix: string, node: string, vs: set<string>)
    requires vs == VOLUMES
    ensures Taken(prefix, node, vs) == VolumesOf(prefix, {node})
  {
    assert forall v :: v in VOLUMES ==> Volume(prefix, node, v) in VolumesOf(prefix, {node});
  }

  lemma {:induction false} TakenIsOurs(prefix: string, node: string, vs: set<string>)
    ensures forall name :: name in Taken(prefix, node, vs) ==> prefix <= name
  {
  }

  lemma {:induction false} OutsideNothing(prefix: string, containers: set<string>, volumes: set<string>)
    ensures Outside(prefix, containers, containers) && Outside(prefix, volumes, volumes)
  {
  }

  lemma {:induction false} ToSetMore(nodes: seq<string>, i: nat)
    requires i < |nodes|
    ensures ToSet(nodes[..i + 1]) == ToSet(nodes[..i]) + {nodes[i]}
  {
    assert nodes[..i + 1] == nodes[..i] + [nodes[i]];
  }

  lemma {:induction false} DoneMore(nodes: seq<string>, i: nat, others: set<string>)
    requires i < |nodes|
    ensures ToSet(nodes[..i + 1]) - others ==
              if nodes[i] in others then ToSet(nodes[..i]) - others else ToSet(nodes[..i]) - others + {nodes[i]}
  {
    ToSetMore(nodes, i);
  }

  lemma {:induction false} NoNames(prefix: string)
    ensures Workers(prefix, {}) == {} && VolumesOf(prefix, {}) == {}
  {
  }

  lemma {:induction false} NamesMore(prefix: string, nodes: set<string>, n: string)
    ensures Workers(prefix, nodes + {n}) == Workers(prefix, nodes) + {Worker(prefix, n)}
    ensures VolumesOf(prefix, nodes + {n}) == VolumesOf(prefix, nodes) + VolumesOf(prefix, {n})
  {
    forall name
      ensures name in VolumesOf(prefix, nodes + {n}) <==> name in VolumesOf(prefix, nodes) + VolumesOf(prefix, {n})
    {
      if name in VolumesOf(prefix, nodes) {
        var m, v :| m in nodes && v in VOLUMES && name == Volume(prefix, m, v);
        assert m in nodes + {n};
      } else if name in VolumesOf(prefix, {n}) {
        var m, v :| m in {n} && v in VOLUMES && name == Volume(prefix, m, v);
        assert m in nodes + {n};
      }
    }
  }

  lemma {:induction false} AddedMore(prefix: string, containers: set<string>, volumes: set<string>, nodes: set<string>,
                                     n: string)
    ensures containers + Workers(prefix, nodes) + {Worker(prefix, n)} == containers + Workers(prefix, nodes + {n})
    ensures volumes + VolumesOf(prefix, nodes) + VolumesOf(prefix, {n}) == volumes + VolumesOf(prefix, nodes + {n})
  {
    NamesMore(prefix, nodes, n);
  }

  lemma {:induction false} WorkersStartWithPrefix(prefix: string, nodes: set<string>)
    ensures forall name :: name in Workers(prefix, nodes) ==> prefix <= name
  {
  }

  lemma {:induction false} VolumesStartWithPrefix(prefix: string, nodes: set<string>)
    ensures forall name :: name in VolumesOf(prefix, nodes) ==> prefix <= name
  {
  }

  // Removing other nodes does not decide whether this one can be removed.
  lemma {:induction false} OthersRemoved(prefix: string, others: set<string>, node: string, failing: set<Command>,
                                         containers: set<string>, volumes: set<string>)
    requires node !in others
    ensures CanRemove(prefix, node, failing, containers - Workers(prefix, others), volumes - VolumesOf(prefix, others))
            <==> CanRemove(prefix, node, failing, containers, volumes)
  {
    WorkerOf(prefix, others, node);
    forall v | v in VOLUMES ensures Volume(prefix, node, v) !in VolumesOf(prefix, others) {
      VolumeOf(prefix, others, node, v);
    }
  }

  // The ones added before count as containers, and that is all they do.
  lemma {:induction false} OthersAdded(prefix: string, configured: seq<string>, i: nat, have: set<string>,
                                       failing: set<Command>, containers: set<string>)
    requires i < |configured| && configured[i] !in have
    ensures CanAdd(prefix, configured[i], failing, containers + Workers(prefix, ToSet(configured[..i]) - have))
            <==> CanAddAt(prefix, configured, i, have, failing, containers)
  {
    WorkerOf(prefix, ToSet(configured[..i]) - have, configured[i]);
  }

  // Removing the unwanted nodes does not decide whether the missing ones can be added.
  lemma {:induction false} StillThere(prefix: string, gone: set<string>, configured: seq<string>, have: set<string>,
                                      failing: set<Command>, containers: set<string>)
    requires gone == have - ToSet(configured)
    ensures CanAddAll(prefix, configured, have, failing, containers - Workers(prefix, gone))
            <==> CanAddAll(prefix, configured, have, failing, containers)
  {
    forall i | 0 <= i < |configured|
      ensures CanAddAt(prefix, configured, i, have, failing, containers - Workers(prefix, gone))
              <==> CanAddAt(prefix, configured, i, have, failing, containers)
    {
      WorkerOf(prefix, gone, configured[i]);
    }
  }

  /** If no command fails, valid node names suffice, as long as the nodes that go have their volumes and no container
      that cannot be inspected has the name of a new node. */
  lemma {:induction false} FeasibleWithoutFailures(prefix: string, configured: seq<string>, hidden: set<string>,
                                                   containers: set<string>, volumes: set<string>)
    requires forall i :: 0 <= i < |configured| ==> configured[i] != "" && configured[i] !in configured[..i]
    requires VolumesOf(prefix, NodesIn(prefix, containers - hidden)) <= volumes
    requires forall n :: n in configured ==> Worker(prefix, n) !in containers * hidden
    ensures Feasible(prefix, configured, hidden, {}, containers, volumes)
  {
    var have := NodesIn(prefix, containers - hidden);
    forall n | n in have ensures CanRemove(prefix, n, {}, containers, volumes) {
      NodeOf(prefix, containers - hidden, n);
      forall v | v in VOLUMES ensures Volume(prefix, n, v) in volumes { VolumeOf(prefix, have, n, v); }
    }
    forall i | 0 <= i < |configured| ensures CanAddAt(prefix, configured, i, have, {}, containers) {
      NodeOf(prefix, containers - hidden, configured[i]);
      assert configured[i] in configured;
    }
  }

  // ---- what success means ----

  // The containers and volumes after a successful call.
  ghost predicate Reconciled(prefix: string, want: set<string>, hidden: set<string>, containers: set<string>,
                             volumes: set<string>, containers': set<string>, volumes': set<string>) {
    var have := NodesIn(prefix, containers - hidden);
    && containers' == containers - Workers(prefix, have - want) + Workers(prefix, want - have)
    && volumes' == volumes - VolumesOf(prefix, have - want) + VolumesOf(prefix, want - have)
  }

  lemma {:induction false} WorkerOf(prefix: string, nodes: set<string>, n: string)
    ensures Worker(prefix, n) in Workers(prefix, nodes) <==> n in nodes
  {
    assert forall m :: Worker(prefix, m)[|prefix|..] == m;
  }

  lemma {:induction false} NodeOf(prefix: string, containers: set<string>, n: string)
    ensures n in NodesIn(prefix, containers) <==> Worker(prefix, n) in containers
  {
    assert prefix <= Worker(prefix, n) && Worker(prefix, n)[|prefix|..] == n;
    if n in NodesIn(prefix, containers) {
      var c :| c in containers && prefix <= c && n == c[|prefix|..];
      assert c == Worker(prefix, n);
    }
  }

  lemma {:induction false} VolumeOf(prefix: string, nodes: set<string>, n: string, v: string)
    requires v in VOLUMES
    ensures Volume(prefix, n, v) in VolumesOf(prefix, nodes) <==> n in nodes
  {
    if Volume(prefix, n, v) in VolumesOf(prefix, nodes) {
      var m, w :| m in nodes && w in VOLUMES && Volume(prefix, n, v) == Volume(prefix, m, w);
      VolumesAreDotFree(v);
      VolumesAreDotFree(w);
      VolumesAreInjective(prefix, n, v, m, w);
    }
  }

  /** After success the cluster's workers are exactly the configured nodes (beside any the daemon could not inspect), a
      removed node has none of its volumes, a new one has all of them and a kept one what it had. */
  lemma {:induction false} WorkersMatchConfiguration(prefix: string, want: set<string>, hidden: set<string>,
                                                     containers: set<string>, volumes: set<string>,
                                                     containers': set<string>, volumes': set<string>,
                                                     n: string, v: string)
    requires Reconciled(prefix, want, hidden, containers, volumes, containers', volumes') && v in VOLUMES
    ensures Worker(prefix, n) in containers' <==> n in want || Worker(prefix, n) in containers * hidden
    ensures var had := Worker(prefix, n) in containers - hidden;
            Volume(prefix, n, v) in volumes' <==>
              if had && n !in want then false
              else if !had && n in want then true
              else Volume(prefix, n, v) in volumes
  {
    var have := NodesIn(prefix, containers - hidden);
    NodeOf(prefix, containers - hidden, n);
    WorkerOf(prefix, have - want, n);
    WorkerOf(prefix, want - have, n);
    VolumeOf(prefix, have - want, n, v);
    VolumeOf(prefix, want - have, n, v);
  }

  /** Whatever one dot-free cluster does to names with its own prefix, no worker or volume of another is touched. */
  lemma {:induction false} OtherClustersUntouched(c: string, d: string, rest: string, before: set<string>,
                                                  after: set<string>)
    requires DotFree(c) && DotFree(d) && c != d && Outside(Prefix(c), before, after)
    ensures Prefix(d) + rest in after <==> Prefix(d) + rest in before
  {
    if Prefix(c) <= Prefix(d) + rest {
      NamesAreInjective(c, d, rest);
    }
  }

  // ---- the configuration ----

  /** validateConfig accepts exactly non-empty, pairwise distinct names that differ from the cluster's. */
  method ValidateConfig(names: seq<string>, cluster: string) returns (ok: bool)
    ensures ok <==>
              && (forall i :: 0 <= i < |names| ==> names[i] != "" && names[i] != cluster)
              && (forall i, j :: 0 <= i < j < |names| ==> names[i] != names[j])
  {
    var seen: set<string> := {};
    for i := 0 to |names|
      invariant seen == ToSet(names[..i])
      invariant forall j :: 0 <= j < i ==> names[j] != "" && names[j] != cluster
      invariant forall j, k :: 0 <= j < k < i ==> names[j] != names[k]
    {
      ToSetMore(names, i);
      if names[i] == "" || names[i] == cluster {
        return false;
      }
      if names[i] in seen {
        return false;
      }
      assert forall j :: 0 <= j < i ==> names[j] in names[..i];
      seen := seen + {names[i]};
    }
    return true;
  }
}
