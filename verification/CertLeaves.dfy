// The leaf certificates and keys in the certs Secret: over every run they come from one generation exactly when the
// start that created the Secret was clean, or a renewal or rotation has patched it since.
module CertLeaves {
  import opened Common
  import opened CertFiles
  import opened CertWorld

  ghost predicate Signed<N(!new)>(leaf: Option<Blob<N>>, run: nat, f: N, ca: Option<Blob<N>>) {
    ca.Some? && leaf == Some(Issued(run, f, ca.value))
  }

  predicate OfRun<N>(b: Option<Blob<N>>, run: nat) {
    b.Some? && b.value.Issued? && b.value.run == run
  }

  // All leaf entries come from the same generation run.
  ghost predicate OneRun<N(!new)>(t: Table<N>, data: Data<N>, run: nat) {
    forall f :: f in t.issuer ==> OfRun(At(t, data, f), run)
  }

  // ... and are signed by the CA entries beside them.
  ghost predicate FromOneRun<N(!new)>(t: Table<N>, data: Data<N>, run: nat) {
    forall f :: f in t.issuer ==> Signed(At(t, data, f), run, f, At(t, data, t.issuer[f]))
  }

  // f is a leaf and c the CA file that signs it.
  ghost predicate Signs<N(!new)>(t: Table<N>, f: N, c: N) {
    && f in t.secretKey && !t.isKept(f) && f in t.issuer && t.issuer[f] == c
    && Lasts(t, c) && c !in t.issuer && c !in t.certCopies && c !in t.keyCopies
  }

  lemma {:induction false} LeafIsSigned<N(!new)>(t: Table<N>, f: N)
    requires t.Valid() && f in t.Leaves()
    ensures Signs(t, f, t.issuer[f])
  {
    assert t.issuer[f] in t.Sources();
    assert t.issuer[f] in t.Lasting();
  }

  // One generation run signs every leaf that it writes with the CA that ends up on disk.
  lemma {:induction false} GeneratedIsSigned<N(!new)>(t: Table<N>, disk: Disk<N>, run: nat, f: N, c: N)
    requires Signs(t, f, c) && (f in disk ==> f == t.admin)
    ensures Signed(Lookup(Generate(t, disk, run), f), run, f, Lookup(Generate(t, disk, run), c))
  {
  }

  // ---- what replicas and the Secret hold for one leaf ----

  // The work of an earlier run, or of none.
  predicate Before<N>(b: Option<Blob<N>>, runs: nat) {
    b.Some? && b.value.Issued? ==> b.value.run < runs
  }

  predicate NotOf<N>(b: Option<Blob<N>>, run: nat) {
    b.Some? && b.value.Issued? ==> b.value.run != run
  }

  // One replica, the leaf f and its CA file c, given what the Secret holds for f.
  ghost predicate LeafKeeps<N(!new)>(t: Table<N>, rep: Replica<N>, f: N, c: N, shared: Option<Blob<N>>, runs: nat) {
    && Before(Lookup(rep.disk, f), runs)
    && match rep.phase
       case Fetched(data) => At(t, data, f).Some? && Before(At(t, data, f), runs)
       case Adopting(data) => At(t, data, f).Some? && Before(At(t, data, f), runs)
       case Stripped => f !in rep.disk
       case Started(run, clean) =>
         && run < runs && f in rep.disk
         && (clean ==> Signed(Lookup(rep.disk, f), run, f, Lookup(rep.disk, c)))
       case Renewed(run) => run < runs && Signed(Lookup(rep.disk, f), run, f, Lookup(rep.disk, c)) && NotOf(shared, run)
       case Syncing(run, base) =>
         && run < runs && Signed(Lookup(rep.disk, f), run, f, Lookup(rep.disk, c)) && NotOf(shared, run)
         && NotOf(At(t, base, f), run)
       case _ => true
  }

  // The Secret's entry; whole says that all leaves should be of one run.
  ghost predicate EntryKeeps<N(!new)>(t: Table<N>, secret: Option<Data<N>>, author: nat, whole: bool, runs: nat,
                                      f: N) {
    secret.Some? ==>
      && Shared(t, secret, f).Some? && Before(Shared(t, secret, f), runs)
      && (whole ==> OfRun(Shared(t, secret, f), author))
  }

  predicate Whole<N>(w: World<N>) {
    w.patched || w.clean
  }

  ghost predicate LeafInv<N(!new)>(t: Table<N>, w: World<N>, f: N, c: N) {
    && (w.secret.None? ==> !w.patched)
    && EntryKeeps(t, w.secret, w.author, Whole(w), w.runs, f)
    && forall r :: 0 <= r < |w.replicas| ==> LeafKeeps(t, w.replicas[r], f, c, Shared(t, w.secret, f), w.runs)
  }

  // ---- runs in progress are distinct ----

  function OwnRun<N>(phase: Phase<N>): Option<nat> {
    if phase.Started? || phase.Renewed? || phase.Syncing? then Some(phase.run) else None
  }

  ghost predicate DistinctRuns<N(!new)>(w: World<N>) {
    && (forall r :: 0 <= r < |w.replicas| && OwnRun(w.replicas[r].phase).Some? ==>
          OwnRun(w.replicas[r].phase).value < w.runs)
    && (forall q, r :: 0 <= q < r < |w.replicas| && OwnRun(w.replicas[q].phase).Some? ==>
          OwnRun(w.replicas[q].phase) != OwnRun(w.replicas[r].phase))
  }

  lemma {:induction false} OwnRunAfter<N(!new)>(t: Table<N>, rep: Replica<N>, secret: Option<Data<N>>, runs: nat,
                                                a: Action<N>)
    ensures var after := OwnRun(ReplicaAfter(t, rep, secret, runs, a).phase);
            after == OwnRun(rep.phase) || after.None? || (a.Regenerate? && after == Some(runs))
  {
  }

  lemma {:induction false} RunsStayDistinct<N(!new)>(t: Table<N>, w: World<N>, a: Action<N>)
    requires DistinctRuns(w)
    ensures DistinctRuns(Next(t, w, a))
  {
    if a.r < |w.replicas| {
      var rep := w.replicas[a.r];
      OwnRunAfter(t, rep, w.secret, w.runs, a);
      var self := ReplicaAfter(t, rep, w.secret, w.runs, a);
      var runs := if a.Regenerate? || a.Crash? then w.runs + 1 else w.runs;
      DistinctPut(w, a.r, self, runs);
    }
  }

  lemma {:induction false} DistinctPut<N(!new)>(w: World<N>, r: nat, self: Replica<N>, runs: nat)
    requires DistinctRuns(w) && r < |w.replicas| && w.runs <= runs
    requires var after := OwnRun(self.phase);
             after == OwnRun(w.replicas[r].phase) || after.None? || (w.runs < runs && after == Some(w.runs))
    ensures DistinctRuns(w.(replicas := w.replicas[r := self], runs := runs))
  {
  }

  // ---- before there is a Secret ----

  predicate Local<N>(phase: Phase<N>) {
    !phase.Fetched? && !phase.Adopting? && !phase.Syncing?
  }

  // As long as there is no Secret, nobody has a leaf of another replica's run.
  ghost predicate Apart<N(!new)>(w: World<N>, f: N) {
    w.secret.None? ==>
      && (forall r :: 0 <= r < |w.replicas| ==> Local(w.replicas[r].phase))
      && (forall q, r :: 0 <= q < |w.replicas| && 0 <= r < |w.replicas| && q != r && w.replicas[r].phase.Renewed? ==>
            NotOf(Lookup(w.replicas[q].disk, f), w.replicas[r].phase.run))
  }

  // What a replica does then to its leaf is its own new work.
  lemma {:induction false} ApartSelf<N(!new)>(t: Table<N>, rep: Replica<N>, runs: nat, a: Action<N>, f: N, c: N)
    requires Signs(t, f, c) && Local(rep.phase) && !Creates(rep, None, a)
    ensures var after := ReplicaAfter(t, rep, None, runs, a);
            && Local(after.phase) && (after.phase.Renewed? ==> after.phase == rep.phase || after.phase.run == runs)
            && forall run: nat :: run < runs && NotOf(Lookup(rep.disk, f), run) ==> NotOf(Lookup(after.disk, f), run)
  {
    if a.Crash? {
      BlendAt(rep.disk, Pending(t, rep, runs), a.done, f);
    }
  }

  lemma {:induction false} ApartPut<N(!new)>(w: World<N>, r: nat, self: Replica<N>, runs: nat, f: N)
    requires w.secret.None? && Apart(w, f) && r < |w.replicas| && Local(self.phase)
    requires forall q :: 0 <= q < |w.replicas| ==> Before(Lookup(w.replicas[q].disk, f), runs)
    requires forall q :: 0 <= q < |w.replicas| && w.replicas[q].phase.Renewed? ==> w.replicas[q].phase.run < runs
    requires self.phase.Renewed? ==> self.phase == w.replicas[r].phase || self.phase.run == runs
    requires forall run: nat ::
               run < runs && NotOf(Lookup(w.replicas[r].disk, f), run) ==> NotOf(Lookup(self.disk, f), run)
    ensures Apart(w.(replicas := w.replicas[r := self]), f)
  {
  }

  lemma {:induction false} ApartStep<N(!new)>(t: Table<N>, w: World<N>, a: Action<N>, f: N, c: N)
    requires Signs(t, f, c) && LeafInv(t, w, f, c) && Apart(w, f)
    ensures Apart(Next(t, w, a), f)
  {
    if a.r < |w.replicas| && Act(t, w, a).secret.None? {
      var rep := w.replicas[a.r];
      ApartSelf(t, rep, w.runs, a, f, c);
      forall q | 0 <= q < |w.replicas|
        ensures Before(Lookup(w.replicas[q].disk, f), w.runs)
        ensures w.replicas[q].phase.Renewed? ==> w.replicas[q].phase.run < w.runs
      {
        assert LeafKeeps(t, w.replicas[q], f, c, Shared(t, w.secret, f), w.runs);
      }
      ApartPut(w, a.r, ReplicaAfter(t, rep, None, w.runs, a), w.runs, f);
    }
  }

  // ---- one action ----

  // The entry after an action: a patch replaces every leaf, because none of them is of the patching run yet.
  lemma {:induction false} EntryStep<N(!new)>(t: Table<N>, rep: Replica<N>, secret: Option<Data<N>>, author: nat,
                                              whole: bool, runs: nat, a: Action<N>, f: N, c: N)
    requires t.Invertible() && Signs(t, f, c)
    requires EntryKeeps(t, secret, author, whole, runs, f) && LeafKeeps(t, rep, f, c, Shared(t, secret, f), runs)
    ensures var after := SecretAfter(t, rep, secret, a);
            if Patches(rep, secret, a) then
              EntryKeeps(t, after, rep.phase.run, true, runs, f) && Shared(t, after, f) == Lookup(rep.disk, f)
            else if Creates(rep, secret, a) then
              EntryKeeps(t, after, rep.phase.run, rep.phase.clean, runs, f) &&
              Shared(t, after, f) == Lookup(rep.disk, f)
            else after == secret
  {
    UploadAt(t, rep.disk, f);
    if Patches(rep, secret, a) {
      PatchAt(t, secret.value, rep.phase.base, Upload(t, rep.disk), f);
    }
  }

  // The pending file step leaves the leaf as a run before runs + 1 made it.
  lemma {:induction false} PendingLeaf<N(!new)>(t: Table<N>, rep: Replica<N>, f: N, c: N, shared: Option<Blob<N>>,
                                                runs: nat)
    requires Signs(t, f, c) && LeafKeeps(t, rep, f, c, shared, runs)
    ensures Before(Lookup(Pending(t, rep, runs), f), runs + 1)
    ensures rep.phase.Fetched? || rep.phase.Adopting? || rep.phase.Renewing? ==>
        Before(Lookup(Pending(t, rep, runs), f), runs)
    ensures rep.phase.Renewing? ==> f !in Pending(t, rep, runs)
  {
    match rep.phase
    case Fetched(data) => DownloadAt(t, rep.disk, data, f);
    case Adopting(data) => DownloadAt(t, rep.disk, data, f);
    case _ =>
  }

  // The acting replica, by kind of action; the Secret's entry is still the old one.
  lemma {:induction false} LeafRenews<N(!new)>(t: Table<N>, rep: Replica<N>, f: N, c: N, shared: Option<Blob<N>>,
                                               runs: nat)
    requires Signs(t, f, c) && f !in rep.disk && Before(shared, runs)
    ensures LeafKeeps(t, rep.(disk := Generate(t, rep.disk, runs), phase := Renewed(runs)), f, c, shared, runs + 1)
  {
    GeneratedIsSigned(t, rep.disk, runs, f, c);
  }

  lemma {:induction false} LeafStarts<N(!new)>(t: Table<N>, rep: Replica<N>, f: N, c: N, shared: Option<Blob<N>>,
                                               runs: nat, clean: bool)
    requires Signs(t, f, c) && Before(Lookup(rep.disk, f), runs) && (clean && f in rep.disk ==> f == t.admin)
    ensures LeafKeeps(t, rep.(disk := Generate(t, rep.disk, runs), phase := Started(runs, clean)),
                      f, c, shared, runs + 1)
  {
    if clean {
      GeneratedIsSigned(t, rep.disk, runs, f, c);
    }
  }

  lemma {:induction false} LeafRegenerates<N(!new)>(t: Table<N>, rep: Replica<N>, secret: Option<Data<N>>, runs: nat,
                                                    a: Action<N>, f: N, c: N)
    requires Signs(t, f, c) && LeafKeeps(t, rep, f, c, Shared(t, secret, f), runs) && Before(Shared(t, secret, f), runs)
    requires a.Regenerate? && (NoLeaves(t, rep.disk) && f in rep.disk ==> f == t.admin)
    ensures LeafKeeps(t, ReplicaAfter(t, rep, secret, runs, a), f, c, Shared(t, secret, f), runs + 1)
  {
    if rep.phase.Stripped? {
      LeafRenews(t, rep, f, c, Shared(t, secret, f), runs);
    } else if rep.phase.Starting? {
      LeafStarts(t, rep, f, c, Shared(t, secret, f), runs, NoLeaves(t, rep.disk));
    }
  }

  lemma {:induction false} LeafCrashes<N(!new)>(t: Table<N>, rep: Replica<N>, secret: Option<Data<N>>, runs: nat,
                                                a: Action<N>, f: N, c: N)
    requires Signs(t, f, c) && LeafKeeps(t, rep, f, c, Shared(t, secret, f), runs) && a.Crash?
    ensures LeafKeeps(t, ReplicaAfter(t, rep, secret, runs, a), f, c, Shared(t, secret, f), runs + 1)
  {
    PendingLeaf(t, rep, f, c, Shared(t, secret, f), runs);
    BlendAt(rep.disk, Pending(t, rep, runs), a.done, f);
  }

  lemma {:induction false} LeafMoves<N(!new)>(t: Table<N>, rep: Replica<N>, secret: Option<Data<N>>, runs: nat,
                                              a: Action<N>, f: N, c: N)
    requires t.Invertible() && Signs(t, f, c) && LeafKeeps(t, rep, f, c, Shared(t, secret, f), runs)
    requires secret.Some? ==> Shared(t, secret, f).Some? && Before(Shared(t, secret, f), runs)
    requires !a.Regenerate? && !a.Crash?
    ensures LeafKeeps(t, ReplicaAfter(t, rep, secret, runs, a), f, c, Shared(t, secret, f), runs)
  {
    PendingLeaf(t, rep, f, c, Shared(t, secret, f), runs);
    if a.Create? {
      UploadAt(t, rep.disk, f);
    }
  }

  lemma {:induction false} LeafSelf<N(!new)>(t: Table<N>, rep: Replica<N>, secret: Option<Data<N>>, runs: nat,
                                             a: Action<N>, f: N, c: N)
    requires t.Invertible() && Signs(t, f, c) && LeafKeeps(t, rep, f, c, Shared(t, secret, f), runs)
    requires secret.Some? ==> Shared(t, secret, f).Some? && Before(Shared(t, secret, f), runs)
    requires NoLeaves(t, rep.disk) && f in rep.disk ==> f == t.admin
    ensures LeafKeeps(t, ReplicaAfter(t, rep, secret, runs, a), f, c, Shared(t, secret, f),
                      if a.Regenerate? || a.Crash? then runs + 1 else runs)
  {
    if a.Regenerate? {
      LeafRegenerates(t, rep, secret, runs, a, f, c);
    } else if a.Crash? {
      LeafCrashes(t, rep, secret, runs, a, f, c);
    } else {
      LeafMoves(t, rep, secret, runs, a, f, c);
    }
  }

  // The Secret was written by somebody else's run.
  lemma {:induction false} LeafOther<N(!new)>(t: Table<N>, rep: Replica<N>, f: N, c: N, shared: Option<Blob<N>>,
                                              runs: nat, after: Option<Blob<N>>, runs': nat)
    requires LeafKeeps(t, rep, f, c, shared, runs) && runs <= runs'
    requires after == shared || (rep.phase.Renewed? || rep.phase.Syncing? ==> NotOf(after, rep.phase.run))
    ensures LeafKeeps(t, rep, f, c, after, runs')
  {
  }

  // What a write puts into the Secret is not of any other replica's renewal.
  lemma {:induction false} OthersWork<N(!new)>(t: Table<N>, w: World<N>, a: Action<N>, f: N, c: N, r: nat)
    requires t.Invertible() && Signs(t, f, c) && LeafInv(t, w, f, c) && DistinctRuns(w) && Apart(w, f)
    requires a.r < |w.replicas| && r < |w.replicas| && r != a.r
    ensures var rep, after := w.replicas[r], Shared(t, Act(t, w, a).secret, f);
            || after == Shared(t, w.secret, f)
            || (rep.phase.Renewed? || rep.phase.Syncing? ==> NotOf(after, rep.phase.run))
  {
    var self, rep := w.replicas[a.r], w.replicas[r];
    assert LeafKeeps(t, self, f, c, Shared(t, w.secret, f), w.runs);
    EntryStep(t, self, w.secret, w.author, Whole(w), w.runs, a, f, c);
    if Patches(self, w.secret, a) {
      assert OwnRun(self.phase) == Some(self.phase.run) && OwnRun(self.phase) != OwnRun(rep.phase);
    }
  }

  lemma {:induction false} LeafReplica<N(!new)>(t: Table<N>, w: World<N>, a: Action<N>, f: N, c: N, r: nat)
    requires t.Invertible() && f in t.Leaves() && Signs(t, f, c)
    requires LeafInv(t, w, f, c) && DistinctRuns(w) && Apart(w, f)
    requires a.r < |w.replicas| && r < |w.replicas|
    ensures LeafKeeps(t, Act(t, w, a).replicas[r], f, c, Shared(t, Act(t, w, a).secret, f), Act(t, w, a).runs)
  {
    var rep, shared := w.replicas[r], Shared(t, w.secret, f);
    var w' := Act(t, w, a);
    assert LeafKeeps(t, rep, f, c, shared, w.runs);
    if r == a.r {
      LeafSelf(t, rep, w.secret, w.runs, a, f, c);
      var self := ReplicaAfter(t, rep, w.secret, w.runs, a);
      assert Patches(rep, w.secret, a) || Creates(rep, w.secret, a) ==> !self.phase.Renewed? && !self.phase.Syncing?;
      LeafOther(t, self, f, c, shared, w'.runs, Shared(t, w'.secret, f), w'.runs);
    } else {
      OthersWork(t, w, a, f, c, r);
      LeafOther(t, rep, f, c, shared, w.runs, Shared(t, w'.secret, f), w'.runs);
    }
  }

  lemma {:induction false} LeafStep<N(!new)>(t: Table<N>, w: World<N>, a: Action<N>, f: N, c: N)
    requires t.Invertible() && f in t.Leaves() && Signs(t, f, c)
    requires LeafInv(t, w, f, c) && DistinctRuns(w) && Apart(w, f)
    ensures LeafInv(t, Next(t, w, a), f, c)
  {
    if a.r < |w.replicas| {
      var rep, w' := w.replicas[a.r], Act(t, w, a);
      assert LeafKeeps(t, rep, f, c, Shared(t, w.secret, f), w.runs);
      EntryStep(t, rep, w.secret, w.author, Whole(w), w.runs, a, f, c);
      forall r | 0 <= r < |w'.replicas| ensures LeafKeeps(t, w'.replicas[r], f, c, Shared(t, w'.secret, f), w'.runs) {
        LeafReplica(t, w, a, f, c, r);
      }
    }
  }

  // The leaf files that are there at the start are the work of earlier runs.
  ghost predicate OldLeaves<N(!new)>(t: Table<N>, w: World<N>) {
    forall r, f :: 0 <= r < |w.replicas| && f in t.Leaves() ==> Before(Lookup(w.replicas[r].disk, f), w.runs)
  }

  lemma {:induction false} LeafRun<N(!new)>(t: Table<N>, w: World<N>, actions: seq<Action<N>>, f: N, c: N)
    requires t.Valid() && f in t.Leaves() && Signs(t, f, c) && Initial(w) && OldLeaves(t, w)
    ensures LeafInv(t, Run(t, w, actions), f, c) && DistinctRuns(Run(t, w, actions)) && Apart(Run(t, w, actions), f)
  {
    if actions != [] {
      var before := actions[..|actions| - 1];
      LeafRun(t, w, before, f, c);
      RunsStayDistinct(t, Run(t, w, before), actions[|actions| - 1]);
      ApartStep(t, Run(t, w, before), actions[|actions| - 1], f, c);
      LeafStep(t, Run(t, w, before), actions[|actions| - 1], f, c);
    }
  }

  // ---- signatures ----

  ghost predicate SignedInv<N(!new)>(t: Table<N>, w: World<N>, f: N, c: N) {
    w.secret.Some? && Whole(w) ==> Signed(Shared(t, w.secret, f), w.author, f, Shared(t, w.secret, c))
  }

  // Leaf and CA are written together, or the CA is what the writer's directory has anyway.
  lemma {:induction false} SignedEntry<N(!new)>(t: Table<N>, rep: Replica<N>, secret: Option<Data<N>>, author: nat,
                                                whole: bool, runs: nat, a: Action<N>, f: N, c: N)
    requires t.Invertible() && Signs(t, f, c) && (secret.Some? ==> Shared(t, secret, c).Some?)
    requires EntryKeeps(t, secret, author, whole, runs, f) && LeafKeeps(t, rep, f, c, Shared(t, secret, f), runs)
    requires Keeps(t, rep, c, Shared(t, secret, c))
    ensures var after := SecretAfter(t, rep, secret, a);
            && (Patches(rep, secret, a) || (Creates(rep, secret, a) && rep.phase.clean) ==>
                  Signed(Shared(t, after, f), rep.phase.run, f, Shared(t, after, c)))
            && (!Patches(rep, secret, a) && !Creates(rep, secret, a) ==> after == secret)
  {
    EntryStep(t, rep, secret, author, whole, runs, a, f, c);
    SecretKeeps(t, rep, secret, a, c);
    UploadAt(t, rep.disk, c);
  }

  lemma {:induction false} SignedStep<N(!new)>(t: Table<N>, w: World<N>, a: Action<N>, f: N, c: N)
    requires t.Invertible() && Signs(t, f, c) && KeepInv(t, w, c) && LeafInv(t, w, f, c) && SignedInv(t, w, f, c)
    ensures SignedInv(t, Next(t, w, a), f, c)
  {
    if a.r < |w.replicas| {
      var rep := w.replicas[a.r];
      assert Keeps(t, rep, c, Shared(t, w.secret, c)) && LeafKeeps(t, rep, f, c, Shared(t, w.secret, f), w.runs);
      SignedEntry(t, rep, w.secret, w.author, Whole(w), w.runs, a, f, c);
    }
  }

  lemma {:induction false} SignedRun<N(!new)>(t: Table<N>, w: World<N>, actions: seq<Action<N>>, f: N, c: N)
    requires t.Valid() && f in t.Leaves() && Signs(t, f, c) && Initial(w) && OldLeaves(t, w)
    requires AllRotatePrepared(t, w, actions, c)
    ensures SignedInv(t, Run(t, w, actions), f, c)
  {
    if actions != [] {
      var before := actions[..|actions| - 1];
      SignedRun(t, w, before, f, c);
      RunKeeps(t, w, before, 0, c);
      LeafRun(t, w, before, f, c);
      SignedStep(t, Run(t, w, before), actions[|actions| - 1], f, c);
    }
  }

  // ---- a start that was not clean ----

  // Some leaf is not of the run that wrote the admin kubeconfig.
  ghost predicate Torn<N(!new)>(t: Table<N>, at: N -> Option<Blob<N>>, run: nat) {
    OfRun(at(t.admin), run) && exists g :: g in t.issuer && NotOf(at(g), run)
  }

  ghost predicate TornDisk<N(!new)>(t: Table<N>, disk: Disk<N>, run: nat) {
    Torn(t, f => Lookup(disk, f), run)
  }

  ghost predicate TornData<N(!new)>(t: Table<N>, data: Data<N>, run: nat) {
    Torn(t, f => At(t, data, f), run)
  }

  ghost predicate TornInv<N(!new)>(t: Table<N>, w: World<N>) {
    && (forall r :: 0 <= r < |w.replicas| ==>
          var rep := w.replicas[r]; rep.phase.Started? && !rep.phase.clean ==> TornDisk(t, rep.disk, rep.phase.run))
    && (w.secret.Some? && !Whole(w) ==> TornData(t, w.secret.value, w.author))
  }

  ghost predicate Leafed<N(!new)>(t: Table<N>) {
    t.admin in t.Leaves() && t.issuer.Keys == t.Leaves()
  }

  lemma {:induction false} UncleanIsTorn<N(!new)>(t: Table<N>, disk: Disk<N>, run: nat)
    requires Leafed(t) && !NoLeaves(t, disk)
    requires forall f :: f in t.Leaves() ==> Before(Lookup(disk, f), run)
    ensures TornDisk(t, Generate(t, disk, run), run)
  {
    var after := Generate(t, disk, run);
    var g :| g in t.Leaves() && g in disk && g != t.admin;
    assert g in t.issuer && t.admin in t.issuer;
    assert Lookup(after, g) == Lookup(disk, g) && NotOf(Lookup(after, g), run);
    assert OfRun(Lookup(after, t.admin), run);
  }

  lemma {:induction false} TornUploads<N(!new)>(t: Table<N>, disk: Disk<N>, run: nat)
    requires t.Valid() && TornDisk(t, disk, run)
    ensures TornData(t, Upload(t, disk), run)
  {
    var g :| g in t.issuer && NotOf(Lookup(disk, g), run);
    UploadAt(t, disk, g);
    UploadAt(t, disk, t.admin);
    assert NotOf(At(t, Upload(t, disk), g), run);
  }

  lemma {:induction false} TornIsNotOneRun<N(!new)>(t: Table<N>, data: Data<N>, run: nat, any: nat)
    requires t.Valid() && TornData(t, data, run)
    ensures !OneRun(t, data, any) && !FromOneRun(t, data, any)
  {
    var g :| g in t.issuer && NotOf(At(t, data, g), run);
    assert t.admin in t.issuer;
  }

  lemma {:induction false} StartedAfter<N(!new)>(t: Table<N>, rep: Replica<N>, secret: Option<Data<N>>, runs: nat,
                                                 a: Action<N>)
    ensures var after := ReplicaAfter(t, rep, secret, runs, a);
            after.phase.Started? ==>
              || after == rep
              || (&& a.Regenerate? && rep.phase.Starting? && after.disk == Generate(t, rep.disk, runs)
                  && after.phase == Started(runs, NoLeaves(t, rep.disk)))
  {
  }

  lemma {:induction false} TornReplica<N(!new)>(t: Table<N>, rep: Replica<N>, secret: Option<Data<N>>, runs: nat,
                                                a: Action<N>)
    requires Leafed(t) && forall f :: f in t.Leaves() ==> Before(Lookup(rep.disk, f), runs)
    requires rep.phase.Started? && !rep.phase.clean ==> TornDisk(t, rep.disk, rep.phase.run)
    ensures var after := ReplicaAfter(t, rep, secret, runs, a);
            after.phase.Started? && !after.phase.clean ==> TornDisk(t, after.disk, after.phase.run)
  {
    StartedAfter(t, rep, secret, runs, a);
    if !NoLeaves(t, rep.disk) {
      UncleanIsTorn(t, rep.disk, runs);
    }
  }

  lemma {:induction false} TornSecret<N(!new)>(t: Table<N>, w: World<N>, a: Action<N>)
    requires t.Valid() && TornInv(t, w) && a.r < |w.replicas|
    ensures var w' := Act(t, w, a); w'.secret.Some? && !Whole(w') ==> TornData(t, w'.secret.value, w'.author)
  {
    var rep := w.replicas[a.r];
    if Creates(rep, w.secret, a) && !rep.phase.clean {
      TornUploads(t, rep.disk, rep.phase.run);
    }
  }

  lemma {:induction false} TornStep<N(!new)>(t: Table<N>, w: World<N>, a: Action<N>)
    requires t.Valid() && TornInv(t, w) && a.r < |w.replicas|
    requires forall f :: f in t.Leaves() ==> Before(Lookup(w.replicas[a.r].disk, f), w.runs)
    ensures TornInv(t, Act(t, w, a))
  {
    TornSecret(t, w, a);
    TornReplica(t, w.replicas[a.r], w.secret, w.runs, a);
  }

  lemma {:induction false} TornRun<N(!new)>(t: Table<N>, w: World<N>, actions: seq<Action<N>>)
    requires t.Valid() && Initial(w) && OldLeaves(t, w)
    ensures TornInv(t, Run(t, w, actions))
  {
    if actions != [] {
      var before, a := actions[..|actions| - 1], actions[|actions| - 1];
      var was := Run(t, w, before);
      TornRun(t, w, before);
      if a.r < |was.replicas| {
        forall f | f in t.Leaves() ensures Before(Lookup(was.replicas[a.r].disk, f), was.runs) {
          LeafIsSigned(t, f);
          LeafRun(t, w, before, f, t.issuer[f]);
          assert LeafKeeps(t, was.replicas[a.r], f, t.issuer[f], Shared(t, was.secret, f), was.runs);
        }
        TornStep(t, was, a);
      }
    }
  }

  // ---- the exact condition ----

  // No rotation begins in a directory that could bring in another CA.
  ghost predicate SignersPrepared<N(!new)>(t: Table<N>, w: World<N>, actions: seq<Action<N>>) {
    forall f :: f in t.issuer ==> AllRotatePrepared(t, w, actions, t.issuer[f])
  }

  /** Over every interleaving of starts, renewals, rotations, crashes and failing requests, the leaf certificates and
      keys in the Secret come from one single run if and only if the Secret was patched since its creation or the start
      that created it found no leaf file but the admin kubeconfig. They are signed by the CA entries beside them under
      the same condition, as long as rotations begin prepared. */
  lemma {:induction false} SecretFromOneRunIff<N(!new)>(t: Table<N>, w: World<N>, actions: seq<Action<N>>)
    requires t.Valid() && Initial(w) && OldLeaves(t, w) && Run(t, w, actions).secret.Some?
    ensures var now := Run(t, w, actions);
            && ((exists run :: OneRun(t, now.secret.value, run)) <==> now.patched || now.clean)
            && (now.patched || now.clean ==> OneRun(t, now.secret.value, now.author))
    ensures SignersPrepared(t, w, actions) ==>
              var now := Run(t, w, actions);
              && ((exists run :: FromOneRun(t, now.secret.value, run)) <==> now.patched || now.clean)
              && (now.patched || now.clean ==> FromOneRun(t, now.secret.value, now.author))
  {
    var now := Run(t, w, actions);
    if Whole(now) {
      WholeIsOneRun(t, w, actions);
    } else {
      TornRun(t, w, actions);
      forall run ensures !OneRun(t, now.secret.value, run) && !FromOneRun(t, now.secret.value, run) {
        TornIsNotOneRun(t, now.secret.value, now.author, run);
      }
    }
  }

  lemma {:induction false} WholeIsOneRun<N(!new)>(t: Table<N>, w: World<N>, actions: seq<Action<N>>)
    requires t.Valid() && Initial(w) && OldLeaves(t, w) && Run(t, w, actions).secret.Some? && Whole(Run(t, w, actions))
    ensures var now := Run(t, w, actions); OneRun(t, now.secret.value, now.author)
    ensures SignersPrepared(t, w, actions) ==>
              var now := Run(t, w, actions); FromOneRun(t, now.secret.value, now.author)
  {
    var now := Run(t, w, actions);
    forall f | f in t.issuer
      ensures OfRun(At(t, now.secret.value, f), now.author)
      ensures SignersPrepared(t, w, actions) ==>
                Signed(At(t, now.secret.value, f), now.author, f, At(t, now.secret.value, t.issuer[f]))
    {
      LeafIsSigned(t, f);
      LeafRun(t, w, actions, f, t.issuer[f]);
      if SignersPrepared(t, w, actions) {
        SignedRun(t, w, actions, f, t.issuer[f]);
      }
    }
  }

  lemma {:induction false} WholeStays<N(!new)>(t: Table<N>, w: World<N>, actions: seq<Action<N>>, i: nat)
    requires i <= |actions|
    ensures var was, now := Run(t, w, actions[..i]), Run(t, w, actions);
            was.secret.Some? && Whole(was) ==> now.secret.Some? && Whole(now)
  {
    if i == |actions| {
      assert actions[..i] == actions;
    } else {
      var before := actions[..|actions| - 1];
      assert before[..i] == actions[..i];
      WholeStays(t, w, before, i);
    }
  }

  /** A Secret that is whole once stays whole, and the first renewal or rotation makes a torn one whole. */
  lemma {:induction false} OnceWholeAlwaysWhole<N(!new)>(t: Table<N>, w: World<N>, actions: seq<Action<N>>, i: nat,
                                                         run: nat)
    requires t.Valid() && Initial(w) && OldLeaves(t, w) && i <= |actions|
    requires var was := Run(t, w, actions[..i]); was.secret.Some? && OneRun(t, was.secret.value, run)
    ensures var now := Run(t, w, actions); now.secret.Some? && OneRun(t, now.secret.value, now.author)
    ensures SignersPrepared(t, w, actions) ==>
              var now := Run(t, w, actions); FromOneRun(t, now.secret.value, now.author)
  {
    SecretFromOneRunIff(t, w, actions[..i]);
    WholeStays(t, w, actions, i);
    SecretFromOneRunIff(t, w, actions);
  }

  /** What one start uploads comes from one run, signed by the CA beside it, exactly when its directory held no leaf
      file but the admin kubeconfig. */
  lemma {:induction false} UploadFromOneRunIff<N(!new)>(t: Table<N>, disk: Disk<N>, run: nat)
    requires t.Valid() && forall f :: f in t.Leaves() ==> Before(Lookup(disk, f), run)
    ensures FromOneRun(t, Upload(t, Generate(t, disk, run)), run) <==> NoLeaves(t, disk)
    ensures OneRun(t, Upload(t, Generate(t, disk, run)), run) <==> NoLeaves(t, disk)
  {
    var after := Generate(t, disk, run);
    if NoLeaves(t, disk) {
      forall f | f in t.issuer
        ensures Signed(At(t, Upload(t, after), f), run, f, At(t, Upload(t, after), t.issuer[f]))
      {
        LeafIsSigned(t, f);
        UploadAt(t, after, f);
        UploadAt(t, after, t.issuer[f]);
        GeneratedIsSigned(t, disk, run, f, t.issuer[f]);
      }
    } else {
      UncleanIsTorn(t, disk, run);
      TornUploads(t, after, run);
      TornIsNotOneRun(t, Upload(t, after), run, run);
    }
  }
}
