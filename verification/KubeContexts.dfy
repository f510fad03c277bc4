// pkg/cli/delete_helm.go (deleteContext): removing a context from a kubeconfig with the entries only it uses.
module KubeContexts {
  import opened Common

  datatype Context = Context(cluster: string, user: string)

  // A context may be nil; cluster and user entries are opaque.
  datatype Kube = Kube(
    contexts: map<string, Option<Context>>, clusters: map<string, int>, users: map<string, int>, current: string)

  predicate Live(c: Kube, name: string) {
    name in c.contexts && c.contexts[name].Some?
  }

  predicate UsesCluster(contexts: map<string, Option<Context>>, cluster: string) {
    exists n :: n in contexts && contexts[n].Some? && contexts[n].value.cluster == cluster
  }

  predicate UsesUser(contexts: map<string, Option<Context>>, user: string) {
    exists n :: n in contexts && contexts[n].Some? && contexts[n].value.user == user
  }

  function Dropped(entries: map<string, int>, entry: string, used: bool): map<string, int> {
    if used then entries else entries - {entry}
  }

  // d is c after deleting the context, with other ("" for none) as the new current context.
  ghost predicate Deletes(c: Kube, name: string, other: string, d: Kube) {
    if name !in c.contexts then d == c
    else
      && c.contexts[name].Some?
      && d.contexts == c.contexts - {name}
      && d.clusters == Dropped(c.clusters, c.contexts[name].value.cluster,
                               UsesCluster(d.contexts, c.contexts[name].value.cluster))
      && d.users == Dropped(c.users, c.contexts[name].value.user, UsesUser(d.contexts, c.contexts[name].value.user))
      && if c.current != name then d.current == c.current
         else if other != "" then d.current == other
         else Live(d, d.current) || (d.current == "" && forall n :: !Live(d, n))
  }

  class KubeConfig {
    var contexts: map<string, Option<Context>>
    var clusters: map<string, int>
    var users: map<string, int>
    var current: string

    ghost function Value(): Kube
      reads this
    {
      Kube(contexts, clusters, users, current)
    }

    constructor (c: Kube)
      ensures Value() == c
    {
      contexts, clusters, users, current := c.contexts, c.clusters, c.users, c.current;
    }

    method DeleteContext(name: string, other: string)
      requires name in contexts ==> contexts[name].Some?
      modifies this
      ensures Deletes(old(Value()), name, other, Value())
    {
      if name !in contexts {
        return;
      }
      var context := contexts[name].value;
      contexts := contexts - {name};
      var removeUser, removeCluster := Unused(context);
      if removeUser {
        users := users - {context.user};
      }
      if removeCluster {
        clusters := clusters - {context.cluster};
      }
      if current == name {
        MoveCurrent(other);
      }
    }

    method MoveCurrent(other: string)
      modifies `current
      ensures if other != "" then current == other
              else if exists n :: n in contexts && contexts[n].Some? then current in contexts && contexts[current].Some?
              else current == ""
    {
      current := "";
      if other != "" {
        current := other;
      } else if |contexts| > 0 {
        current := Fallback();
      }
    }

    // The loop over the remaining contexts, in any order.
    method Unused(context: Context) returns (removeUser: bool, removeCluster: bool)
      ensures removeUser <==> !UsesUser(contexts, context.user)
      ensures removeCluster <==> !UsesCluster(contexts, context.cluster)
    {
      removeUser, removeCluster := true, true;
      var todo := contexts.Keys;
      while todo != {}
        invariant todo <= contexts.Keys
        invariant removeUser <==> forall n :: n in contexts && n !in todo && contexts[n].Some? ==>
            contexts[n].value.user != context.user
        invariant removeCluster <==>
                    forall n :: n in contexts && n !in todo && contexts[n].Some? ==>
                        contexts[n].value.cluster != context.cluster
        decreases |todo|
      {
        var n :| n in todo;
        todo := todo - {n};
        if contexts[n].None? {
          continue;
        }
        if contexts[n].value.user == context.user {
          removeUser := false;
        }
        if contexts[n].value.cluster == context.cluster {
          removeCluster := false;
        }
      }
    }

    // Any remaining context that is not nil.
    method Fallback() returns (name: string)
      ensures if exists n :: n in contexts && contexts[n].Some? then name in contexts && contexts[name].Some?
              else name == ""
    {
      var todo := contexts.Keys;
      while todo != {}
        invariant todo <= contexts.Keys
        invariant forall n :: n in contexts && n !in todo ==> contexts[n].None?
        decreases |todo|
      {
        var n :| n in todo;
        if contexts[n].Some? {
          return n;
        }
        todo := todo - {n};
      }
      return "";
    }
  }

  // ---- any number of deletions ----

  // states[i + 1] is states[i] after the i-th call.
  datatype Call = Call(name: string, other: string)

  ghost predicate History(states: seq<Kube>, calls: seq<Call>) {
    && |states| == |calls| + 1
    && forall i :: 0 <= i < |calls| ==> Deletes(states[i], calls[i].name, calls[i].other, states[i + 1])
  }

  ghost predicate Closed(c: Kube) {
    forall n :: Live(c, n) ==> c.contexts[n].value.cluster in c.clusters && c.contexts[n].value.user in c.users
  }

  // A live context of c that is gone from d.
  predicate Gone(c: Kube, d: Kube, n: string) {
    Live(c, n) && n !in d.contexts
  }

  ghost predicate GoneCluster(c: Kube, d: Kube, cluster: string) {
    exists n :: Gone(c, d, n) && c.contexts[n].value.cluster == cluster
  }

  ghost predicate GoneUser(c: Kube, d: Kube, user: string) {
    exists n :: Gone(c, d, n) && c.contexts[n].value.user == user
  }

  ghost predicate Sub<T>(small: map<string, T>, big: map<string, T>) {
    forall k :: k in small ==> k in big && small[k] == big[k]
  }

  // What is left of c: an entry goes exactly when some deleted context used it and no remaining one does.
  ghost predicate Remains(c: Kube, d: Kube) {
    && Sub(d.contexts, c.contexts) && Sub(d.clusters, c.clusters) && Sub(d.users, c.users)
    && (forall k :: k in c.clusters ==> (k in d.clusters <==> UsesCluster(d.contexts, k) || !GoneCluster(c, d, k)))
    && (forall k :: k in c.users ==> (k in d.users <==> UsesUser(d.contexts, k) || !GoneUser(c, d, k)))
  }

  lemma {:induction false} ClosedStep(c: Kube, name: string, other: string, d: Kube)
    requires Closed(c) && Deletes(c, name, other, d)
    ensures Closed(d)
  {
    forall n | Live(d, n) ensures d.contexts[n].value.cluster in d.clusters && d.contexts[n].value.user in d.users {
      assert Live(c, n) && d.contexts[n] == c.contexts[n];
    }
  }

  // For one cluster: who used it before and after the deletion.
  lemma {:induction false} ClusterStep(c: Kube, d: Kube, name: string, other: string, e: Kube, k: string)
    requires Sub(d.contexts, c.contexts) && Deletes(d, name, other, e) && name in d.contexts
    ensures UsesCluster(d.contexts, k) <==> UsesCluster(e.contexts, k) || d.contexts[name].value.cluster == k
    ensures GoneCluster(c, e, k) <==> GoneCluster(c, d, k) || d.contexts[name].value.cluster == k
  {
    if UsesCluster(e.contexts, k) {
      var n :| n in e.contexts && e.contexts[n].Some? && e.contexts[n].value.cluster == k;
      assert n in d.contexts && d.contexts[n] == e.contexts[n];
    }
    if UsesCluster(d.contexts, k) {
      var n :| n in d.contexts && d.contexts[n].Some? && d.contexts[n].value.cluster == k;
      assert n != name ==> n in e.contexts && d.contexts[n] == e.contexts[n];
    }
    if GoneCluster(c, d, k) {
      var n :| Gone(c, d, n) && c.contexts[n].value.cluster == k;
      assert Gone(c, e, n);
    }
    assert Gone(c, e, name) && c.contexts[name] == d.contexts[name];
    if GoneCluster(c, e, k) {
      var n :| Gone(c, e, n) && c.contexts[n].value.cluster == k;
      assert n != name ==> Gone(c, d, n);
    }
  }

  lemma {:induction false} UserStep(c: Kube, d: Kube, name: string, other: string, e: Kube, k: string)
    requires Sub(d.contexts, c.contexts) && Deletes(d, name, other, e) && name in d.contexts
    ensures UsesUser(d.contexts, k) <==> UsesUser(e.contexts, k) || d.contexts[name].value.user == k
    ensures GoneUser(c, e, k) <==> GoneUser(c, d, k) || d.contexts[name].value.user == k
  {
    if UsesUser(e.contexts, k) {
      var n :| n in e.contexts && e.contexts[n].Some? && e.contexts[n].value.user == k;
      assert n in d.contexts && d.contexts[n] == e.contexts[n];
    }
    if UsesUser(d.contexts, k) {
      var n :| n in d.contexts && d.contexts[n].Some? && d.contexts[n].value.user == k;
      assert n != name ==> n in e.contexts && d.contexts[n] == e.contexts[n];
    }
    if GoneUser(c, d, k) {
      var n :| Gone(c, d, n) && c.contexts[n].value.user == k;
      assert Gone(c, e, n);
    }
    assert Gone(c, e, name) && c.contexts[name] == d.contexts[name];
    if GoneUser(c, e, k) {
      var n :| Gone(c, e, n) && c.contexts[n].value.user == k;
      assert n != name ==> Gone(c, d, n);
    }
  }

  lemma {:induction false} RemainsStep(c: Kube, d: Kube, name: string, other: string, e: Kube)
    requires Remains(c, d) && Deletes(d, name, other, e)
    ensures Remains(c, e)
  {
    if name in d.contexts {
      forall k | k in c.clusters ensures k in e.clusters <==> UsesCluster(e.contexts, k) || !GoneCluster(c, e, k) {
        ClusterStep(c, d, name, other, e, k);
      }
      forall k | k in c.users ensures k in e.users <==> UsesUser(e.contexts, k) || !GoneUser(c, e, k) {
        UserStep(c, d, name, other, e, k);
      }
    }
  }

  lemma {:induction false} RemainsStart(c: Kube)
    ensures Remains(c, c)
  {
  }

  /** After any calls, a cluster or user entry of the first state is gone exactly when a deleted context used it and no
      remaining one does, what stays is unchanged, and no reference dangles that did not dangle before. */
  lemma {:induction false} DeletionsRemoveExactlyUnused(states: seq<Kube>, calls: seq<Call>)
    requires History(states, calls)
    ensures Remains(states[0], states[|calls|]) && (Closed(states[0]) ==> Closed(states[|calls|]))
  {
    if calls == [] {
      RemainsStart(states[0]);
    } else {
      var n := |calls| - 1;
      DeletionsRemoveExactlyUnused(states[..n + 1], calls[..n]);
      assert Deletes(states[n], calls[n].name, calls[n].other, states[n + 1]);
      RemainsStep(states[0], states[n], calls[n].name, calls[n].other, states[n + 1]);
      if Closed(states[0]) { ClosedStep(states[n], calls[n].name, calls[n].other, states[n + 1]); }
    }
  }

  function Named(calls: seq<Call>): set<string> {
    set i | 0 <= i < |calls| :: calls[i].name
  }

  /** After any calls exactly the contexts that were named are gone. */
  lemma {:induction false} DeletionsRemoveNamed(states: seq<Kube>, calls: seq<Call>)
    requires History(states, calls)
    ensures states[|calls|].contexts == states[0].contexts - Named(calls)
  {
    if calls != [] {
      var n := |calls| - 1;
      DeletionsRemoveNamed(states[..n + 1], calls[..n]);
      assert Deletes(states[n], calls[n].name, calls[n].other, states[n + 1]);
      assert Named(calls) == Named(calls[..n]) + {calls[n].name} by {
        assert forall i :: 0 <= i < n ==> calls[i] == calls[..n][i];
      }
    }
  }

  /** The current context moves only when it is deleted, and then to the fallback if there is one. */
  lemma {:induction false} CurrentMovesOnlyWhenDeleted(states: seq<Kube>, calls: seq<Call>, i: nat)
    requires History(states, calls) && i < |calls|
    ensures states[i + 1].current != states[i].current ==>
              calls[i].name == states[i].current && calls[i].name in states[i].contexts
    ensures calls[i].name == states[i].current && calls[i].name in states[i].contexts && calls[i].other != "" ==>
              states[i + 1].current == calls[i].other
  {
    assert Deletes(states[i], calls[i].name, calls[i].other, states[i + 1]);
  }

  // The current context is live, or empty because nothing is.
  ghost predicate CurrentIsLive(c: Kube) {
    Live(c, c.current) || (c.current == "" && forall n :: !Live(c, n))
  }

  /** Without fallbacks the current context never dangles, and it is empty only when no live context is left. */
  lemma {:induction false} CurrentStaysLive(states: seq<Kube>, calls: seq<Call>)
    requires History(states, calls) && CurrentIsLive(states[0])
    requires forall i :: 0 <= i < |calls| ==> calls[i].other == ""
    ensures CurrentIsLive(states[|calls|])
  {
    if calls != [] {
      var n := |calls| - 1;
      CurrentStaysLive(states[..n + 1], calls[..n]);
      CurrentStep(states[n], calls[n].name, states[n + 1]);
    }
  }

  lemma {:induction false} CurrentStep(c: Kube, name: string, d: Kube)
    requires Deletes(c, name, "", d) && CurrentIsLive(c)
    ensures CurrentIsLive(d)
  {
    if name in c.contexts {
      assert Live(c, name);
    }
  }
}
