// pkg/certs/ensure.go: what one undisturbed call of EnsureCerts achieves, and that it has not achieved it before it
// returns.
module CertRenewal {
  import opened Common
  import opened CertFiles
  import opened CertWorld
  import opened CertLeaves
  import opened CertRuns

  // ---- a call that finds the Secret ----

  // The replica after reading the Secret and taking its files.
  function Taken<N(==,!new)>(t: Table<N>, rep: Replica<N>, data: Data<N>, stale: set<Blob<N>>): Replica<N> {
    var expiring := Expiring(t, data, stale);
    Replica(Download(t, rep.disk, data), if expiring then Renewing else Idle, true, !expiring)
  }

  lemma {:induction false} Takes<N(!new)>(t: Table<N>, w: World<N>, acts: seq<Action<N>>, r: nat, data: Data<N>,
                                          stale: set<Blob<N>>)
    requires r < |w.replicas| && w.replicas[r].phase.Idle? && w.secret == Some(data) && Complete(t, data)
    requires acts == [Fetch(r), Take(r, stale)]
    ensures Run(t, w, acts) == w.(replicas := w.replicas[r := Taken(t, w.replicas[r], data, stale)])
  {
    var rep := w.replicas[r];
    var fetched := rep.(phase := Fetched(data), current := false);
    RunTwo(t, w, acts, Fetch(r), Take(r, stale));
    Step(t, w, Fetch(r), rep, fetched);
    Step(t, Next(t, w, Fetch(r)), Take(r, stale), fetched, Taken(t, rep, data, stale));
    assert w.replicas[r := fetched][r := Taken(t, rep, data, stale)] == w.replicas[r := Taken(t, rep, data, stale)];
  }

  /** After reading a Secret without empty entries and writing its files, EnsureCerts returns at once if and only if no
      leaf certificate in it is missing or stale; the directory then holds the Secret, which nobody has changed. */
  lemma {:induction false} ReturnsAtOnceIff<N(!new)>(t: Table<N>, w: World<N>, acts: seq<Action<N>>, r: nat,
                                                     data: Data<N>, stale: set<Blob<N>>, f: N)
    requires r < |w.replicas| && w.replicas[r].phase.Idle? && w.secret == Some(data) && Complete(t, data)
    requires acts == [Fetch(r), Take(r, stale)]
    ensures var now := Run(t, w, acts);
            && (now.replicas[r].current && now.replicas[r].phase.Idle? <==> !Expiring(t, data, stale))
            && now.secret == w.secret && (At(t, data, f).Some? ==> Lookup(now.replicas[r].disk, f) == At(t, data, f))
  {
    Takes(t, w, acts, r, data, stale);
    if At(t, data, f).Some? {
      DownloadAt(t, w.replicas[r].disk, data, f);
    }
  }

  // ---- renewal ----

  lemma {:induction false} Regenerates<N(!new)>(t: Table<N>, w: World<N>, acts: seq<Action<N>>, r: nat, rep: Replica<N>)
    requires r < |w.replicas| && w.replicas[r] == rep && rep.phase.Renewing?
    requires acts == [Remove(r), Regenerate(r)]
    ensures var renewed := rep.(disk := Generate(t, Strip(t, rep.disk), w.runs), phase := Renewed(w.runs));
            Run(t, w, acts) == w.(replicas := w.replicas[r := renewed], runs := w.runs + 1)
  {
    var stripped := rep.(disk := Strip(t, rep.disk), phase := Stripped);
    var renewed := rep.(disk := Generate(t, Strip(t, rep.disk), w.runs), phase := Renewed(w.runs));
    RunTwo(t, w, acts, Remove(r), Regenerate(r));
    Step(t, w, Remove(r), rep, stripped);
    Step(t, Next(t, w, Remove(r)), Regenerate(r), stripped, renewed);
    assert w.replicas[r := stripped][r := renewed] == w.replicas[r := renewed];
  }

  // The files of a renewal: the Secret's CA and service-account files, and leaves that this CA has just signed.
  lemma {:induction false} RenewedFiles<N(!new)>(t: Table<N>, disk: Disk<N>, data: Data<N>, run: nat, f: N)
    requires t.Valid() && forall c :: c in t.Lasting() ==> At(t, data, c).Some?
    ensures var after := Generate(t, Strip(t, Download(t, disk, data)), run);
            && (f in t.Leaves() ==> Lookup(after, f) == Some(Issued(run, f, At(t, data, t.issuer[f]).value)))
            && (f in t.Lasting() ==> Lookup(after, f) == At(t, data, f))
  {
    var down := Download(t, disk, data);
    if f in t.Leaves() {
      var c := t.issuer[f];
      LeafIsSigned(t, f);
      assert c in t.Sources() && c in t.Lasting();
      DownloadAt(t, disk, data, c);
      SourceGenerated(t, Strip(t, down), c, run);
      GeneratedIsSigned(t, Strip(t, down), run, f, c);
    } else if f in t.Lasting() {
      LastingLasts(t, f);
      DownloadAt(t, disk, data, f);
    }
  }

  lemma {:induction false} RenewalRun<N(!new)>(t: Table<N>, w: World<N>, take: seq<Action<N>>, files: seq<Action<N>>,
                                               sync: seq<Action<N>>, r: nat, data: Data<N>, stale: set<Blob<N>>)
    requires r < |w.replicas| && w.replicas[r].phase.Idle? && w.secret == Some(data) && Complete(t, data)
    requires Expiring(t, data, stale) && take == [Fetch(r), Take(r, stale)]
    requires files == [Remove(r), Regenerate(r)] && sync == [ReadSecret(r), PatchSecret(r)]
    ensures var after := Generate(t, Strip(t, Download(t, w.replicas[r].disk, data)), w.runs);
            var now := Run(t, w, take + (files + sync));
            && now.secret == Some(Patch(data, data, Upload(t, after)))
            && now.replicas == w.replicas[r := Replica(after, Idle, true, true)]
  {
    var taken := Taken(t, w.replicas[r], data, stale);
    var renewed := Replica(Generate(t, Strip(t, taken.disk), w.runs), Renewed(w.runs), true, false);
    Takes(t, w, take, r, data, stale);
    Regenerates(t, Run(t, w, take), files, r, taken);
    Syncs(t, Run(t, Run(t, w, take), files), sync, r, renewed);
    RunAppend(t, Run(t, w, take), files, sync);
    RunAppend(t, w, take, files + sync);
    var idle := renewed.(phase := Idle, current := true);
    assert w.replicas[r := taken][r := renewed][r := idle] == w.replicas[r := idle];
  }

  /** A call of EnsureCerts that finds a stale leaf, and that nobody disturbs, gives the Secret new leaves for all of
      them, signed by the CA that it holds, leaves the CA and service-account entries alone, and returns with exactly
      the Secret's bytes in the directory. */
  lemma {:induction false} RenewalRenews<N(!new)>(
    t: Table<N>, w: World<N>, take: seq<Action<N>>, files: seq<Action<N>>, sync: seq<Action<N>>, r: nat,
    data: Data<N>, stale: set<Blob<N>>, f: N)
    requires t.Valid() && r < |w.replicas| && w.replicas[r].phase.Idle? && w.secret == Some(data) && Complete(t, data)
    requires (forall c :: c in t.Lasting() ==> At(t, data, c).Some?) && f in t.secretKey
    requires Expiring(t, data, stale) && take == [Fetch(r), Take(r, stale)]
    requires files == [Remove(r), Regenerate(r)] && sync == [ReadSecret(r), PatchSecret(r)]
    ensures var now := Run(t, w, take + (files + sync));
            && (f in t.Leaves() ==> Shared(t, now.secret, f) == Some(Issued(w.runs, f, At(t, data, t.issuer[f]).value)))
            && (f in t.Lasting() ==> Shared(t, now.secret, f) == At(t, data, f))
            && Lookup(now.replicas[r].disk, f) == Shared(t, now.secret, f)
            && now.replicas[r].current && now.replicas[r].phase.Idle?
  {
    var after := Generate(t, Strip(t, Download(t, w.replicas[r].disk, data)), w.runs);
    RenewalRun(t, w, take, files, sync, r, data, stale);
    RenewedFiles(t, w.replicas[r].disk, data, w.runs, f);
    PatchAt(t, data, data, Upload(t, after), f);
    UploadAt(t, after, f);
  }

  // ---- before the patch ----

  // The actions that may be the last of a successful EnsureCerts.
  predicate Returns<N>(a: Action<N>) {
    a.Take? || a.PatchSecret? || a.Adopt?
  }

  lemma {:induction false} CurrentAfter<N(!new)>(t: Table<N>, rep: Replica<N>, secret: Option<Data<N>>, runs: nat,
                                                 a: Action<N>)
    ensures ReplicaAfter(t, rep, secret, runs, a).current ==> rep.current || Returns(a)
  {
  }

  lemma {:induction false} StaysOut<N(!new)>(t: Table<N>, w: World<N>, more: seq<Action<N>>, r: nat)
    requires r < |w.replicas| && !w.replicas[r].current
    requires forall j :: 0 <= j < |more| && more[j].r == r ==> !Returns(more[j])
    ensures !Run(t, w, more).replicas[r].current
  {
    if more != [] {
      var before, a := more[..|more| - 1], more[|more| - 1];
      StaysOut(t, w, before, r);
      if a.r == r {
        CurrentAfter(t, Run(t, w, before).replicas[r], Run(t, w, before).secret, Run(t, w, before).runs, a);
      }
    }
  }

  // Whoever is in the middle of something does not count as up to date.
  ghost predicate BusyIsOut<N(!new)>(w: World<N>) {
    forall r :: 0 <= r < |w.replicas| && w.replicas[r].current ==> w.replicas[r].phase.Idle?
  }

  lemma {:induction false} BusyAfter<N(!new)>(t: Table<N>, rep: Replica<N>, secret: Option<Data<N>>, runs: nat,
                                              a: Action<N>)
    requires rep.current ==> rep.phase.Idle?
    ensures var after := ReplicaAfter(t, rep, secret, runs, a); after.current ==> after.phase.Idle?
  {
  }

  lemma {:induction false} BusyRun<N(!new)>(t: Table<N>, w: World<N>, actions: seq<Action<N>>)
    requires BusyIsOut(w)
    ensures BusyIsOut(Run(t, w, actions))
  {
    if actions != [] {
      var was, a := Run(t, w, actions[..|actions| - 1]), actions[|actions| - 1];
      BusyRun(t, w, actions[..|actions| - 1]);
      if a.r < |was.replicas| {
        BusyAfter(t, was.replicas[a.r], was.secret, was.runs, a);
      }
    }
  }

  /** In every run: a replica that has found a stale leaf does not count as up to date before it has patched the Secret,
      or another call of EnsureCerts has returned. */
  lemma {:induction false} StaleIsNotCurrent<N(!new)>(t: Table<N>, w: World<N>, first: seq<Action<N>>,
                                                      more: seq<Action<N>>, r: nat, stale: set<Blob<N>>)
    requires Initial(w) && r < |w.replicas| && Run(t, w, first).replicas[r].phase.Fetched?
    requires Expiring(t, Run(t, w, first).replicas[r].phase.data, stale)
    requires forall j :: 0 <= j < |more| && more[j].r == r ==> !Returns(more[j])
    ensures !Run(t, w, first + [Take(r, stale)] + more).replicas[r].current
  {
    var was := Run(t, w, first);
    var take := [Take(r, stale)];
    BusyRun(t, w, first);
    assert take[..0] == [];
    RunAppend(t, w, first, take);
    StaysOut(t, Run(t, w, first + take), more, r);
    RunAppend(t, w, first + take, more);
  }

  // ---- a start that loses the race ----

  lemma {:induction false} Loses<N(!new)>(t: Table<N>, w: World<N>, start: seq<Action<N>>, r: nat, rep: Replica<N>)
    requires r < |w.replicas| && w.replicas[r] == rep && rep.phase.Idle? && w.secret.Some?
    requires start == [FetchFails(r), Regenerate(r), Create(r)]
    ensures var losing := Replica(Generate(t, rep.disk, w.runs), Losing, rep.ready, false);
            Run(t, w, start) == w.(replicas := w.replicas[r := losing], runs := w.runs + 1)
  {
    var d := Generate(t, rep.disk, w.runs);
    var started := Replica(d, Started(w.runs, NoLeaves(t, rep.disk)), rep.ready, false);
    var losing := Replica(d, Losing, rep.ready, false);
    RunThree(t, w, start, FetchFails(r), Regenerate(r), Create(r));
    Starts(t, w, FetchFails(r), r, rep);
    assert w.replicas[r := started][r := losing] == w.replicas[r := losing];
  }

  lemma {:induction false} AdoptsAgain<N(!new)>(t: Table<N>, w: World<N>, adopt: seq<Action<N>>, r: nat,
                                                rep: Replica<N>, data: Data<N>)
    requires r < |w.replicas| && w.replicas[r] == rep && rep.phase.Losing? && w.secret == Some(data)
    requires Complete(t, data) && adopt == [FetchAgain(r), Adopt(r)]
    ensures var adopted := Replica(Download(t, rep.disk, data), Idle, true, true);
            Run(t, w, adopt) == w.(replicas := w.replicas[r := adopted])
  {
    var adopting := rep.(phase := Adopting(data));
    var adopted := Replica(Download(t, rep.disk, data), Idle, true, true);
    RunTwo(t, w, adopt, FetchAgain(r), Adopt(r));
    Step(t, w, FetchAgain(r), rep, adopting);
    Step(t, Next(t, w, FetchAgain(r)), Adopt(r), adopting, adopted);
    assert w.replicas[r := adopting][r := adopted] == w.replicas[r := adopted];
  }

  /** A replica whose Create finds a Secret takes that one: it returns with the winner's bytes for every entry. */
  lemma {:induction false} LoserAdopts<N(!new)>(t: Table<N>, w: World<N>, start: seq<Action<N>>, adopt: seq<Action<N>>,
                                                r: nat, data: Data<N>, f: N)
    requires r < |w.replicas| && w.replicas[r].phase.Idle? && w.secret == Some(data) && Complete(t, data)
    requires start == [FetchFails(r), Regenerate(r), Create(r)] && adopt == [FetchAgain(r), Adopt(r)]
    ensures var now := Run(t, w, start + adopt);
            && now.secret == w.secret && now.replicas[r].current && now.replicas[r].phase.Idle?
            && (At(t, data, f).Some? ==> Lookup(now.replicas[r].disk, f) == At(t, data, f))
  {
    var rep := w.replicas[r];
    var losing := Replica(Generate(t, rep.disk, w.runs), Losing, rep.ready, false);
    Loses(t, w, start, r, rep);
    AdoptsAgain(t, Run(t, w, start), adopt, r, losing, data);
    RunAppend(t, w, start, adopt);
    if At(t, data, f).Some? {
      DownloadAt(t, losing.disk, data, f);
    }
  }

  // ---- a crash ----

  /** A crash in the middle of a file step leaves the files that were done as the whole step would have, and all others
      as they were; the replica starts over and does not count as up to date. */
  lemma {:induction false} CrashLeavesSome<N(!new)>(t: Table<N>, w: World<N>, r: nat, done: set<N>, f: N)
    requires r < |w.replicas|
    ensures var rep, now := w.replicas[r], Next(t, w, Crash(r, done)).replicas[r];
            && now.phase.Idle? && !now.current && now.ready == rep.ready
            && (f !in done ==> Lookup(now.disk, f) == Lookup(rep.disk, f))
            && (f in done && rep.phase.Fetched? ==>
                  Lookup(now.disk, f) == Lookup(Download(t, rep.disk, rep.phase.data), f))
            && (f in done && rep.phase.Renewing? ==> Lookup(now.disk, f) == Lookup(Strip(t, rep.disk), f))
            && (f in done && (rep.phase.Starting? || rep.phase.Stripped?) ==>
                  Lookup(now.disk, f) == Lookup(Generate(t, rep.disk, w.runs), f))
  {
    BlendAt(w.replicas[r].disk, Pending(t, w.replicas[r], w.runs), done, f);
  }
}
