// Replicas of one vCluster that share the certs Secret: every interleaving of first starts, renewals,
// leaf rotations and crashes. An action is one request to the API server or one local file step.
module CertWorld {
  import opened Common
  import opened CertFiles

  datatype Phase<N> =
    | Idle
    | Fetched(data: Data<N>)               // EnsureCerts read the Secret
    | Starting                             // EnsureCerts got none, because there is none or the request failed
    | Started(run: nat, clean: bool)       // ... generated, into a directory without leaf files if clean
    | Losing                               // ... but somebody else was faster
    | Adopting(data: Data<N>)              // ... and will use the Secret that exists
    | Renewing                             // leaf files are about to be removed
    | Stripped                             // ... were removed
    | Renewed(run: nat)                    // ... were generated again
    | Syncing(run: nat, base: Data<N>)     // SyncSecret read the Secret it will patch

  // ready: some EnsureCerts has filled the directory; current: the latest call has returned, with success.
  datatype Replica<N> = Replica(disk: Disk<N>, phase: Phase<N>, ready: bool, current: bool)

  // runs counts generation runs and created the Secrets created; author is the run of the last write to the Secret,
  // clean says whether the start that created it was, and patched whether it was patched since.
  datatype World<N> = World(
    secret: Option<Data<N>>, replicas: seq<Replica<N>>, runs: nat, created: nat,
    author: nat, clean: bool, patched: bool)

  datatype Action<N> =
    | Fetch(r: nat)
    | FetchFails(r: nat)                   // any error counts as if there were no Secret
    | Take(r: nat, stale: set<Blob<N>>)    // at a moment when these certificates count as expired
    | Rotate(r: nat)
    | Remove(r: nat)
    | Regenerate(r: nat)
    | ReadSecret(r: nat)
    | PatchSecret(r: nat)
    | Create(r: nat)
    | FetchAgain(r: nat)
    | Adopt(r: nat)
    | Crash(r: nat, done: set<N>)          // stops or fails mid-step: of the files it was writing only some are done

  // ---- one action ----

  // The directory once the pending file step is finished.
  function Pending<N(==,!new)>(t: Table<N>, rep: Replica<N>, runs: nat): Disk<N> {
    match rep.phase
    case Fetched(data) => Download(t, rep.disk, data)
    case Adopting(data) => Download(t, rep.disk, data)
    case Renewing => Strip(t, rep.disk)
    case Stripped => Generate(t, rep.disk, runs)
    case Starting => Generate(t, rep.disk, runs)
    case _ => rep.disk
  }

  function Blend<N(==,!new)>(before: Disk<N>, after: Disk<N>, done: set<N>): Disk<N> {
    map f | f in before.Keys + after.Keys && (if f in done then f in after else f in before) ::
      if f in done then after[f] else before[f]
  }

  // No leaf file but the admin kubeconfig, which is always written again.
  predicate NoLeaves<N(!new)>(t: Table<N>, disk: Disk<N>) {
    forall f :: f in t.Leaves() && f in disk ==> f == t.admin
  }

  // The acting replica afterwards. Actions that its phase does not allow change nothing.
  function ReplicaAfter<N(==,!new)>(t: Table<N>, rep: Replica<N>, secret: Option<Data<N>>, runs: nat,
                                    a: Action<N>): Replica<N> {
    match (a, rep.phase)
    case (Fetch(_), Idle) => rep.(phase := if secret.Some? then Fetched(secret.value) else Starting, current := false)
    case (FetchFails(_), Idle) => rep.(phase := Starting, current := false)
    case (Take(_, stale), Fetched(data)) =>
      if !Complete(t, data) then rep
      else if Expiring(t, data, stale) then Replica(Pending(t, rep, runs), Renewing, true, false)
      else Replica(Pending(t, rep, runs), Idle, true, true)
    case (Rotate(_), Idle) => rep.(phase := Renewing, current := false)
    case (Remove(_), Renewing) => rep.(disk := Pending(t, rep, runs), phase := Stripped)
    case (Regenerate(_), Stripped) => rep.(disk := Pending(t, rep, runs), phase := Renewed(runs))
    case (Regenerate(_), Starting) => rep.(disk := Pending(t, rep, runs), phase := Started(runs, NoLeaves(t, rep.disk)))
    case (ReadSecret(_), Renewed(run)) => rep.(phase := if secret.Some? then Syncing(run, secret.value) else Idle)
    case (PatchSecret(_), Syncing(_, _)) => rep.(phase := Idle, current := true)
    case (Create(_), Started(_, _)) => rep.(phase := if secret.Some? then Losing else Adopting(Upload(t, rep.disk)))
    case (FetchAgain(_), Losing) => rep.(phase := if secret.Some? then Adopting(secret.value) else Idle)
    case (Adopt(_), Adopting(data)) =>
      if !Complete(t, data) then rep else Replica(Pending(t, rep, runs), Idle, true, true)
    case (Crash(_, done), _) => Replica(Blend(rep.disk, Pending(t, rep, runs), done), Idle, rep.ready, false)
    case _ => rep
  }

  // The two requests that write the Secret.
  predicate Patches<N>(rep: Replica<N>, secret: Option<Data<N>>, a: Action<N>) {
    a.PatchSecret? && rep.phase.Syncing? && secret.Some?
  }

  predicate Creates<N>(rep: Replica<N>, secret: Option<Data<N>>, a: Action<N>) {
    a.Create? && rep.phase.Started? && secret.None?
  }

  function SecretAfter<N(==,!new)>(t: Table<N>, rep: Replica<N>, secret: Option<Data<N>>,
                                   a: Action<N>): Option<Data<N>> {
    if Patches(rep, secret, a) then Some(Patch(secret.value, rep.phase.base, Upload(t, rep.disk)))
    else if Creates(rep, secret, a) then Some(Upload(t, rep.disk))
    else secret
  }

  function Act<N(==,!new)>(t: Table<N>, w: World<N>, a: Action<N>): World<N>
    requires a.r < |w.replicas|
  {
    var rep := w.replicas[a.r];
    World(
      SecretAfter(t, rep, w.secret, a),
      w.replicas[a.r := ReplicaAfter(t, rep, w.secret, w.runs, a)],
      if a.Regenerate? || a.Crash? then w.runs + 1 else w.runs,
      if Creates(rep, w.secret, a) then w.created + 1 else w.created,
      if Patches(rep, w.secret, a) || Creates(rep, w.secret, a) then rep.phase.run else w.author,
      if Creates(rep, w.secret, a) then rep.phase.clean else w.clean,
      w.patched || Patches(rep, w.secret, a))
  }

  function Next<N(==,!new)>(t: Table<N>, w: World<N>, a: Action<N>): (w': World<N>)
    ensures |w'.replicas| == |w.replicas|
  {
    if a.r < |w.replicas| then Act(t, w, a) else w
  }

  function Run<N(==,!new)>(t: Table<N>, w: World<N>, actions: seq<Action<N>>): (w': World<N>)
    ensures |w'.replicas| == |w.replicas|
  {
    if actions == [] then w else Next(t, Run(t, w, actions[..|actions| - 1]), actions[|actions| - 1])
  }

  // No Secret yet; whatever the directories hold, nobody has started.
  ghost predicate Initial<N(!new)>(w: World<N>) {
    && w.secret.None? && w.created == 0 && !w.patched
    && forall r :: 0 <= r < |w.replicas| ==>
         w.replicas[r].phase == Idle && !w.replicas[r].ready && !w.replicas[r].current
  }

  // ---- CA and service-account files ----

  // What the Secret holds for file f.
  function Shared<N(==,!new)>(t: Table<N>, secret: Option<Data<N>>, f: N): Option<Blob<N>> {
    if secret.Some? then At(t, secret.value, f) else None
  }

  // The directory holds the bytes that the Secret holds.
  predicate Agrees<N(!new)>(rep: Replica<N>, f: N, shared: Option<Blob<N>>) {
    shared.Some? && Lookup(rep.disk, f) == shared
  }

  // ... or what the file is copied from does.
  predicate Holds<N(!new)>(t: Table<N>, disk: Disk<N>, f: N, shared: Option<Blob<N>>) {
    shared.Some? &&
    if f in disk then disk[f] == shared.value
    else if f in t.certCopies then
      t.certCopies[f] in disk && FirstBlock(disk[t.certCopies[f]]) == shared.value
    else
      f in t.keyCopies && t.keyCopies[f] in disk && disk[t.keyCopies[f]] == shared.value
  }

  // One replica and one lasting file, given the bytes the Secret holds for it.
  ghost predicate Keeps<N(!new)>(t: Table<N>, rep: Replica<N>, f: N, shared: Option<Blob<N>>) {
    && (rep.ready ==> Agrees(rep, f, shared))
    && match rep.phase
       case Idle => true
       case Fetched(data) => shared.Some? && At(t, data, f) == shared
       case Adopting(data) => shared.Some? && At(t, data, f) == shared
       case Starting => true
       case Started(_, _) => f in rep.disk
       case Losing => true
       case Renewing => Holds(t, rep.disk, f, shared)
       case Stripped => Holds(t, rep.disk, f, shared)
       case Renewed(_) => Agrees(rep, f, shared)
       case Syncing(_, base) => Agrees(rep, f, shared) && At(t, base, f) == shared
  }

  // All that the argument needs of a CA or service-account file.
  ghost predicate Lasts<N(!new)>(t: Table<N>, f: N) {
    && f in t.secretKey && t.isKept(f) && f != t.admin && f !in t.issuer
    && (f in t.certCopies ==> t.isKept(t.certCopies[f])) && (f in t.keyCopies ==> t.isKept(t.keyCopies[f]))
  }

  lemma {:induction false} LastingLasts<N(!new)>(t: Table<N>, f: N)
    requires t.Valid() && f in t.Lasting()
    ensures Lasts(t, f)
  {
    assert f in t.certCopies ==> t.certCopies[f] in t.Lasting();
    assert f in t.keyCopies ==> t.keyCopies[f] in t.Lasting();
  }

  ghost predicate KeepInv<N(!new)>(t: Table<N>, w: World<N>, f: N) {
    && (w.secret.Some? ==> Shared(t, w.secret, f).Some?)
    && forall r :: 0 <= r < |w.replicas| ==> Keeps(t, w.replicas[r], f, Shared(t, w.secret, f))
  }

  // A rotation begins where some EnsureCerts has filled the directory, or where it holds the Secret's bytes anyway.
  ghost predicate RotatesPrepared<N(!new)>(t: Table<N>, rep: Replica<N>, secret: Option<Data<N>>, a: Action<N>, f: N) {
    a.Rotate? && rep.phase.Idle? ==> rep.ready || Holds(t, rep.disk, f, Shared(t, secret, f))
  }

  ghost predicate AllRotatePrepared<N(!new)>(t: Table<N>, w: World<N>, actions: seq<Action<N>>, f: N) {
    actions == [] ||
    var was, a := Run(t, w, actions[..|actions| - 1]), actions[|actions| - 1];
    && AllRotatePrepared(t, w, actions[..|actions| - 1], f)
    && (a.r < |was.replicas| ==> RotatesPrepared(t, was.replicas[a.r], was.secret, a, f))
  }

  lemma {:induction false} BlendAt<N(!new)>(before: Disk<N>, after: Disk<N>, done: set<N>, f: N)
    ensures Lookup(Blend(before, after, done), f) == if f in done then Lookup(after, f) else Lookup(before, f)
  {
  }

  // A pending file step never changes a lasting file of a replica that has it from the Secret.
  lemma {:induction false} PendingKeeps<N(!new)>(t: Table<N>, rep: Replica<N>, runs: nat, f: N, shared: Option<Blob<N>>)
    requires t.Invertible() && Lasts(t, f) && Keeps(t, rep, f, shared)
    ensures Agrees(rep, f, shared) || rep.phase.Stripped? ==> Lookup(Pending(t, rep, runs), f) == shared
    ensures rep.phase.Renewing? ==> Holds(t, Pending(t, rep, runs), f, shared)
    ensures rep.phase.Fetched? || rep.phase.Adopting? ==> Lookup(Pending(t, rep, runs), f) == shared
    ensures rep.phase.Starting? ==> f in Pending(t, rep, runs)
  {
    match rep.phase
    case Fetched(data) => DownloadAt(t, rep.disk, data, f);
    case Adopting(data) => DownloadAt(t, rep.disk, data, f);
    case _ =>
  }

  // A replica that does not act is not disturbed by a Secret that appears or keeps its bytes.
  lemma {:induction false} KeepOther<N(!new)>(t: Table<N>, rep: Replica<N>, f: N, shared: Option<Blob<N>>,
                                              after: Option<Blob<N>>)
    requires Keeps(t, rep, f, shared) && (after == shared || shared.None?)
    ensures Keeps(t, rep, f, after)
  {
  }

  // Patching leaves a lasting entry alone: the patch does not mention it.
  lemma {:induction false} SecretKeeps<N(!new)>(t: Table<N>, rep: Replica<N>, secret: Option<Data<N>>, a: Action<N>,
                                                f: N)
    requires t.Invertible() && f in t.secretKey && Keeps(t, rep, f, Shared(t, secret, f))
    requires secret.Some? ==> Shared(t, secret, f).Some?
    ensures var after := SecretAfter(t, rep, secret, a);
            && (secret.Some? ==> after.Some? && Shared(t, after, f) == Shared(t, secret, f))
            && (after.Some? ==> Shared(t, after, f).Some?)
            && (Creates(rep, secret, a) ==> Shared(t, after, f) == At(t, Upload(t, rep.disk), f))
  {
    UploadAt(t, rep.disk, f);
    if Patches(rep, secret, a) {
      PatchAt(t, secret.value, rep.phase.base, Upload(t, rep.disk), f);
    }
  }

  lemma {:induction false} KeepSelf<N(!new)>(t: Table<N>, rep: Replica<N>, secret: Option<Data<N>>, runs: nat,
                                             a: Action<N>, f: N)
    requires t.Invertible() && Lasts(t, f) && Keeps(t, rep, f, Shared(t, secret, f))
    requires RotatesPrepared(t, rep, secret, a, f) && (secret.Some? ==> Shared(t, secret, f).Some?)
    ensures Keeps(t, ReplicaAfter(t, rep, secret, runs, a), f, Shared(t, SecretAfter(t, rep, secret, a), f))
  {
    PendingKeeps(t, rep, runs, f, Shared(t, secret, f));
    SecretKeeps(t, rep, secret, a, f);
    if a.Crash? {
      BlendAt(rep.disk, Pending(t, rep, runs), a.done, f);
    }
  }

  lemma {:induction false} KeepStep<N(!new)>(t: Table<N>, w: World<N>, a: Action<N>, f: N)
    requires t.Invertible() && Lasts(t, f) && KeepInv(t, w, f)
    requires a.r < |w.replicas| ==> RotatesPrepared(t, w.replicas[a.r], w.secret, a, f)
    ensures KeepInv(t, Next(t, w, a), f)
    ensures w.secret.Some? ==>
        Next(t, w, a).secret.Some? && Shared(t, Next(t, w, a).secret, f) == Shared(t, w.secret, f)
  {
    if a.r < |w.replicas| {
      var rep, w' := w.replicas[a.r], Act(t, w, a);
      SecretKeeps(t, rep, w.secret, a, f);
      KeepSelf(t, rep, w.secret, w.runs, a, f);
      forall r | 0 <= r < |w'.replicas| ensures Keeps(t, w'.replicas[r], f, Shared(t, w'.secret, f)) {
        if r != a.r { KeepOther(t, w.replicas[r], f, Shared(t, w.secret, f), Shared(t, w'.secret, f)); }
      }
    }
  }

  lemma {:induction false} RunKeeps<N(!new)>(t: Table<N>, w: World<N>, actions: seq<Action<N>>, i: nat, f: N)
    requires t.Invertible() && Lasts(t, f) && KeepInv(t, w, f) && AllRotatePrepared(t, w, actions, f)
    requires i <= |actions|
    ensures KeepInv(t, Run(t, w, actions), f)
    ensures var was, now := Run(t, w, actions[..i]).secret, Run(t, w, actions).secret;
            was.Some? ==> now.Some? && Shared(t, now, f) == Shared(t, was, f)
  {
    if i == |actions| {
      assert actions[..i] == actions;
      if actions != [] {
        RunKeeps(t, w, actions[..|actions| - 1], 0, f);
        KeepStep(t, Run(t, w, actions[..|actions| - 1]), actions[|actions| - 1], f);
      }
    } else {
      var before := actions[..|actions| - 1];
      assert before[..i] == actions[..i];
      RunKeeps(t, w, before, i, f);
      KeepStep(t, Run(t, w, before), actions[|actions| - 1], f);
    }
  }

  /** Whatever interleaves, a CA or service-account file in the Secret never changes once it is there, and every replica
      that ever finished EnsureCerts has exactly those bytes on disk, as long as no rotation begins in a directory that
      no EnsureCerts has filled and that does not hold these bytes. */
  lemma {:induction false} LastingFilesNeverChange<N(!new)>(t: Table<N>, w: World<N>, actions: seq<Action<N>>, i: nat,
                                                            f: N)
    requires t.Valid() && f in t.Lasting() && Initial(w) && i <= |actions| && AllRotatePrepared(t, w, actions, f)
    ensures var was, now := Run(t, w, actions[..i]), Run(t, w, actions);
            && (was.secret.Some? ==> now.secret.Some? && Shared(t, now.secret, f) == Shared(t, was.secret, f))
            && (forall r :: 0 <= r < |now.replicas| && now.replicas[r].ready ==>
                  Shared(t, now.secret, f).Some? && Lookup(now.replicas[r].disk, f) == Shared(t, now.secret, f))
  {
    LastingLasts(t, f);
    RunKeeps(t, w, actions, i, f);
  }

  // ---- first start ----

  lemma {:induction false} CreatedOnce<N(!new)>(t: Table<N>, w: World<N>, actions: seq<Action<N>>)
    requires w.created == if w.secret.Some? then 1 else 0
    ensures var now := Run(t, w, actions); now.created == if now.secret.Some? then 1 else 0
  {
    if actions != [] { CreatedOnce(t, w, actions[..|actions| - 1]); }
  }

  // Neither a rotation nor a renewal begins.
  predicate Quiet<N(!new)>(t: Table<N>, rep: Replica<N>, a: Action<N>) {
    !a.Rotate? && (a.Take? && rep.phase.Fetched? ==> !Expiring(t, rep.phase.data, a.stale))
  }

  predicate AllQuiet<N(!new)>(t: Table<N>, w: World<N>, actions: seq<Action<N>>) {
    actions == [] ||
    var was, a := Run(t, w, actions[..|actions| - 1]), actions[|actions| - 1];
    AllQuiet(t, w, actions[..|actions| - 1]) && (a.r < |was.replicas| ==> Quiet(t, was.replicas[a.r], a))
  }

  predicate InRenewal<N>(phase: Phase<N>) {
    phase.Renewing? || phase.Stripped? || phase.Renewed? || phase.Syncing?
  }

  // One replica and any file, as long as nobody renews: only a start may rewrite the admin kubeconfig.
  ghost predicate QuietKeeps<N(!new)>(t: Table<N>, rep: Replica<N>, f: N, shared: Option<Blob<N>>) {
    && (rep.ready ==> shared.Some? && (f != t.admin ==> Lookup(rep.disk, f) == shared))
    && (rep.current ==> shared.Some? && Lookup(rep.disk, f) == shared)
    && !InRenewal(rep.phase) && (rep.current ==> rep.phase.Idle?)
    && (rep.phase.Fetched? || rep.phase.Adopting? ==> shared.Some? && At(t, rep.phase.data, f) == shared)
    && (rep.phase.Started? ==> f in rep.disk)
  }

  ghost predicate QuietInv<N(!new)>(t: Table<N>, w: World<N>, f: N) {
    && (w.secret.Some? ==> Shared(t, w.secret, f).Some?)
    && forall r :: 0 <= r < |w.replicas| ==> QuietKeeps(t, w.replicas[r], f, Shared(t, w.secret, f))
  }

  lemma {:induction false} QuietSecret<N(!new)>(t: Table<N>, rep: Replica<N>, secret: Option<Data<N>>, a: Action<N>,
                                                f: N)
    requires t.Invertible() && f in t.secretKey && QuietKeeps(t, rep, f, Shared(t, secret, f))
    requires secret.Some? ==> Shared(t, secret, f).Some?
    ensures var after := SecretAfter(t, rep, secret, a);
            && (secret.Some? ==> after == secret)
            && (after.Some? ==> Shared(t, after, f).Some?)
            && (Creates(rep, secret, a) ==> after == Some(Upload(t, rep.disk)))
  {
    UploadAt(t, rep.disk, f);
  }

  lemma {:induction false} QuietCrash<N(!new)>(t: Table<N>, rep: Replica<N>, runs: nat, done: set<N>, f: N,
                                               shared: Option<Blob<N>>)
    requires f in t.secretKey && QuietKeeps(t, rep, f, shared)
    ensures QuietKeeps(t, Replica(Blend(rep.disk, Pending(t, rep, runs), done), Idle, rep.ready, false), f, shared)
  {
    if rep.phase.Fetched? || rep.phase.Adopting? {
      DownloadAt(t, rep.disk, rep.phase.data, f);
    }
    BlendAt(rep.disk, Pending(t, rep, runs), done, f);
  }

  lemma {:induction false} QuietFiles<N(!new)>(t: Table<N>, rep: Replica<N>, secret: Option<Data<N>>, runs: nat,
                                               a: Action<N>, f: N)
    requires f in t.secretKey && QuietKeeps(t, rep, f, Shared(t, secret, f)) && Quiet(t, rep, a)
    requires a.Take? || a.Adopt?
    ensures QuietKeeps(t, ReplicaAfter(t, rep, secret, runs, a), f, Shared(t, SecretAfter(t, rep, secret, a), f))
  {
    if rep.phase.Fetched? || rep.phase.Adopting? {
      DownloadAt(t, rep.disk, rep.phase.data, f);
    }
  }

  lemma {:induction false} QuietSelf<N(!new)>(t: Table<N>, rep: Replica<N>, secret: Option<Data<N>>, runs: nat,
                                              a: Action<N>, f: N)
    requires t.Invertible() && f in t.secretKey && QuietKeeps(t, rep, f, Shared(t, secret, f)) && Quiet(t, rep, a)
    requires secret.Some? ==> Shared(t, secret, f).Some?
    ensures QuietKeeps(t, ReplicaAfter(t, rep, secret, runs, a), f, Shared(t, SecretAfter(t, rep, secret, a), f))
  {
    if a.Crash? {
      QuietCrash(t, rep, runs, a.done, f, Shared(t, secret, f));
    } else if a.Take? || a.Adopt? {
      QuietFiles(t, rep, secret, runs, a, f);
    } else {
      QuietSecret(t, rep, secret, a, f);
    }
  }

  lemma {:induction false} QuietStep<N(!new)>(t: Table<N>, w: World<N>, a: Action<N>, f: N)
    requires t.Invertible() && f in t.secretKey && QuietInv(t, w, f)
    requires a.r < |w.replicas| ==> Quiet(t, w.replicas[a.r], a)
    ensures QuietInv(t, Next(t, w, a), f)
  {
    if a.r < |w.replicas| {
      var rep, w' := w.replicas[a.r], Act(t, w, a);
      QuietSecret(t, rep, w.secret, a, f);
      QuietSelf(t, rep, w.secret, w.runs, a, f);
      forall r | 0 <= r < |w'.replicas| ensures QuietKeeps(t, w'.replicas[r], f, Shared(t, w'.secret, f)) {
        if r != a.r { assert QuietKeeps(t, w.replicas[r], f, Shared(t, w.secret, f)); }
      }
    }
  }

  lemma {:induction false} QuietRun<N(!new)>(t: Table<N>, w: World<N>, actions: seq<Action<N>>, f: N)
    requires t.Invertible() && f in t.secretKey && QuietInv(t, w, f) && AllQuiet(t, w, actions)
    ensures QuietInv(t, Run(t, w, actions), f)
  {
    if actions != [] {
      QuietRun(t, w, actions[..|actions| - 1], f);
      QuietStep(t, Run(t, w, actions[..|actions| - 1]), actions[|actions| - 1], f);
    }
  }

  /** Replicas that race through their starts, on whatever directories, with whatever crashes and failing requests: at
      most one Create wins, and every replica whose latest EnsureCerts returned success holds the winner's bytes for
      every file of certMap; one that ever did still holds them for all of them but the admin kubeconfig. */
  lemma {:induction false} RacersAgree<N(!new)>(t: Table<N>, w: World<N>, actions: seq<Action<N>>, f: N)
    requires t.Valid() && f in t.secretKey && Initial(w) && AllQuiet(t, w, actions)
    ensures var now := Run(t, w, actions);
            && now.created == (if now.secret.Some? then 1 else 0)
            && forall r :: 0 <= r < |now.replicas| ==>
                 var rep := now.replicas[r];
                 rep.current || (rep.ready && f != t.admin) ==>
                   Shared(t, now.secret, f).Some? && Lookup(rep.disk, f) == Shared(t, now.secret, f)
  {
    CreatedOnce(t, w, actions);
    QuietRun(t, w, actions, f);
  }

  lemma {:induction false} RunAppend<N(!new)>(t: Table<N>, w: World<N>, first: seq<Action<N>>, second: seq<Action<N>>)
    ensures Run(t, w, first + second) == Run(t, Run(t, w, first), second)
  {
    if second == [] {
      assert first + second == first;
    } else {
      var n := |second| - 1;
      assert (first + second)[..|first| + n] == first + second[..n];
      RunAppend(t, w, first, second[..n]);
    }
  }
}
