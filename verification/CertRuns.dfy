// Particular runs of pkg/certs: what one rotation does to the Secret, and the runs in which promises fail.
module CertRuns {
  import opened Common
  import opened CertFiles
  import opened CertWorld
  import opened CertLeaves

  // ---- steps of one replica ----

  function Empty<N>(): Replica<N> {
    Replica(map[], Idle, false, false)
  }

  function Fresh<N>(replicas: nat): World<N> {
    World(None, seq(replicas, _ => Empty()), 0, 0, 0, false, false)
  }

  lemma {:induction false} Step<N(!new)>(t: Table<N>, w: World<N>, a: Action<N>, rep: Replica<N>, after: Replica<N>)
    requires a.r < |w.replicas| && w.replicas[a.r] == rep && after == ReplicaAfter(t, rep, w.secret, w.runs, a)
    requires !a.Create? && !a.PatchSecret?
    ensures Next(t, w, a) ==
              w.(replicas := w.replicas[a.r := after], runs := if a.Regenerate? || a.Crash? then w.runs + 1 else w.runs)
  {
  }

  lemma {:induction false} RunTwo<N(!new)>(t: Table<N>, w: World<N>, acts: seq<Action<N>>, a: Action<N>, b: Action<N>)
    requires acts == [a, b]
    ensures Run(t, w, acts) == Next(t, Next(t, w, a), b)
  {
    assert acts[..1] == [a] && [a][..0] == [];
    assert Run(t, w, [a]) == Next(t, w, a);
  }

  lemma {:induction false} RunThree<N(!new)>(t: Table<N>, w: World<N>, acts: seq<Action<N>>, a: Action<N>,
                                             b: Action<N>, c: Action<N>)
    requires acts == [a, b, c]
    ensures Run(t, w, acts) == Next(t, Next(t, Next(t, w, a), b), c)
  {
    assert acts[..2] == [a, b];
    RunTwo(t, w, [a, b], a, b);
  }

  // A start, from an idle replica to its generated files.
  lemma {:induction false} Starts<N(!new)>(t: Table<N>, w: World<N>, a: Action<N>, r: nat, rep: Replica<N>)
    requires r < |w.replicas| && w.replicas[r] == rep && rep.phase.Idle?
    requires a == FetchFails(r) || (a == Fetch(r) && w.secret.None?)
    ensures var started := Replica(Generate(t, rep.disk, w.runs), Started(w.runs, NoLeaves(t, rep.disk)), rep.ready,
                                   false);
            Next(t, Next(t, w, a), Regenerate(r)) == w.(replicas := w.replicas[r := started], runs := w.runs + 1)
  {
    var starting := rep.(phase := Starting, current := false);
    var started := Replica(Generate(t, rep.disk, w.runs), Started(w.runs, NoLeaves(t, rep.disk)), rep.ready, false);
    Step(t, w, a, rep, starting);
    Step(t, Next(t, w, a), Regenerate(r), starting, started);
    assert w.replicas[r := starting][r := started] == w.replicas[r := started];
  }

  lemma {:induction false} StartsAndCrashes<N(!new)>(t: Table<N>, w: World<N>, a: Action<N>, acts: seq<Action<N>>,
                                                     r: nat, rep: Replica<N>)
    requires r < |w.replicas| && w.replicas[r] == rep && rep.phase.Idle?
    requires a == FetchFails(r) || (a == Fetch(r) && w.secret.None?)
    requires acts == [a, Regenerate(r), Crash(r, {})]
    ensures var crashed := Replica(Generate(t, rep.disk, w.runs), Idle, rep.ready, false);
            Run(t, w, acts) == w.(replicas := w.replicas[r := crashed], runs := w.runs + 2)
  {
    var d := Generate(t, rep.disk, w.runs);
    RunThree(t, w, acts, a, Regenerate(r), Crash(r, {}));
    Starts(t, w, a, r, rep);
    var started := Replica(d, Started(w.runs, NoLeaves(t, rep.disk)), rep.ready, false);
    var crashed := Replica(d, Idle, rep.ready, false);
    assert Blend(d, d, {}) == d;
    Step(t, Next(t, Next(t, w, a), Regenerate(r)), Crash(r, {}), started, crashed);
    assert w.replicas[r := started][r := crashed] == w.replicas[r := crashed];
  }

  lemma {:induction false} StartsAndCreates<N(!new)>(t: Table<N>, w: World<N>, acts: seq<Action<N>>, r: nat,
                                                     rep: Replica<N>)
    requires r < |w.replicas| && w.replicas[r] == rep && rep.phase.Idle? && w.secret.None?
    requires acts == [Fetch(r), Regenerate(r), Create(r)]
    ensures var d := Generate(t, rep.disk, w.runs);
            var adopting := Replica(d, Adopting(Upload(t, d)), rep.ready, false);
            Run(t, w, acts) == World(Some(Upload(t, d)), w.replicas[r := adopting], w.runs + 1, w.created + 1, w.runs,
                                     NoLeaves(t, rep.disk), w.patched)
  {
    RunThree(t, w, acts, Fetch(r), Regenerate(r), Create(r));
    Starts(t, w, Fetch(r), r, rep);
    var d := Generate(t, rep.disk, w.runs);
    var started := Replica(d, Started(w.runs, NoLeaves(t, rep.disk)), rep.ready, false);
    var adopting := Replica(d, Adopting(Upload(t, d)), rep.ready, false);
    assert w.replicas[r := started][r := adopting] == w.replicas[r := adopting];
  }

  lemma {:induction false} Adopts<N(!new)>(t: Table<N>, w: World<N>, acts: seq<Action<N>>, r: nat, rep: Replica<N>)
    requires r < |w.replicas| && w.replicas[r] == rep && rep.phase.Adopting? && Complete(t, rep.phase.data)
    requires acts == [Adopt(r)]
    ensures var adopted := Replica(Download(t, rep.disk, rep.phase.data), Idle, true, true);
            Run(t, w, acts) == w.(replicas := w.replicas[r := adopted])
  {
    assert acts[..0] == [];
    Step(t, w, Adopt(r), rep, Replica(Download(t, rep.disk, rep.phase.data), Idle, true, true));
  }

  // The files of a rotation.
  function Rotated<N(==,!new)>(t: Table<N>, rep: Replica<N>, run: nat): Replica<N> {
    Replica(Generate(t, Strip(t, rep.disk), run), Renewed(run), rep.ready, false)
  }

  lemma {:induction false} Rotates<N(!new)>(t: Table<N>, w: World<N>, acts: seq<Action<N>>, r: nat, rep: Replica<N>)
    requires r < |w.replicas| && w.replicas[r] == rep && rep.phase.Idle?
    requires acts == [Rotate(r), Remove(r), Regenerate(r)]
    ensures Run(t, w, acts) == w.(replicas := w.replicas[r := Rotated(t, rep, w.runs)], runs := w.runs + 1)
  {
    var renewing := rep.(phase := Renewing, current := false);
    var stripped := Replica(Strip(t, rep.disk), Stripped, rep.ready, false);
    RunThree(t, w, acts, Rotate(r), Remove(r), Regenerate(r));
    Step(t, w, Rotate(r), rep, renewing);
    Step(t, Next(t, w, Rotate(r)), Remove(r), renewing, stripped);
    Step(t, Next(t, Next(t, w, Rotate(r)), Remove(r)), Regenerate(r), stripped, Rotated(t, rep, w.runs));
    assert w.replicas[r := renewing][r := stripped][r := Rotated(t, rep, w.runs)] ==
           w.replicas[r := Rotated(t, rep, w.runs)];
  }

  lemma {:induction false} ReadsSecret<N(!new)>(t: Table<N>, w: World<N>, r: nat, rep: Replica<N>)
    requires r < |w.replicas| && w.replicas[r] == rep && rep.phase.Renewed? && w.secret.Some?
    ensures Next(t, w, ReadSecret(r)) ==
              w.(replicas := w.replicas[r := rep.(phase := Syncing(rep.phase.run, w.secret.value))])
  {
    Step(t, w, ReadSecret(r), rep, rep.(phase := Syncing(rep.phase.run, w.secret.value)));
  }

  lemma {:induction false} PatchesSecret<N(!new)>(t: Table<N>, w: World<N>, r: nat, rep: Replica<N>)
    requires r < |w.replicas| && w.replicas[r] == rep && rep.phase.Syncing? && w.secret.Some?
    ensures Next(t, w, PatchSecret(r)) ==
              w.(secret := Some(Patch(w.secret.value, rep.phase.base, Upload(t, rep.disk))),
                 replicas := w.replicas[r := rep.(phase := Idle, current := true)],
                 author := rep.phase.run, patched := true)
  {
  }

  lemma {:induction false} Syncs<N(!new)>(t: Table<N>, w: World<N>, acts: seq<Action<N>>, r: nat, rep: Replica<N>)
    requires r < |w.replicas| && w.replicas[r] == rep && rep.phase.Renewed? && w.secret.Some?
    requires acts == [ReadSecret(r), PatchSecret(r)]
    ensures var data := w.secret.value;
            Run(t, w, acts) ==
              w.(secret := Some(Patch(data, data, Upload(t, rep.disk))),
                 replicas := w.replicas[r := rep.(phase := Idle, current := true)],
                 author := rep.phase.run, patched := true)
  {
    var syncing := rep.(phase := Syncing(rep.phase.run, w.secret.value));
    RunTwo(t, w, acts, ReadSecret(r), PatchSecret(r));
    ReadsSecret(t, w, r, rep);
    PatchesSecret(t, Next(t, w, ReadSecret(r)), r, syncing);
    var idle := rep.(phase := Idle, current := true);
    assert syncing.(phase := Idle, current := true) == idle;
    assert w.replicas[r := syncing][r := idle] == w.replicas[r := idle];
  }

  // A start on an empty directory that goes through.
  lemma {:induction false} StartsUp<N(!new)>(t: Table<N>, w: World<N>, acts: seq<Action<N>>, r: nat)
    requires t.Invertible() && r < |w.replicas| && w.replicas[r] == Empty() && w.secret.None?
    requires acts == [Fetch(r), Regenerate(r), Create(r), Adopt(r)]
    ensures var d := Generate(t, map[], w.runs);
            var adopted := Replica(Download(t, d, Upload(t, d)), Idle, true, true);
            var now := Run(t, w, acts);
            now.secret == Some(Upload(t, d)) && now.replicas == w.replicas[r := adopted] && now.runs == w.runs + 1
  {
    var d := Generate(t, map[], w.runs);
    var adopting := Replica(d, Adopting(Upload(t, d)), false, false);
    var adopted := Replica(Download(t, d, Upload(t, d)), Idle, true, true);
    GeneratedIsComplete(t, d, w.runs);
    StartsAndCreates(t, w, acts[..3], r, Empty());
    Adopts(t, Run(t, w, acts[..3]), acts[3..], r, adopting);
    assert acts == acts[..3] + acts[3..];
    RunAppend(t, w, acts[..3], acts[3..]);
    assert w.replicas[r := adopting][r := adopted] == w.replicas[r := adopted];
  }

  lemma {:induction false} GeneratedIsComplete<N(!new)>(t: Table<N>, d: Disk<N>, run: nat)
    requires t.Invertible() && d == Generate(t, map[], run)
    ensures Complete(t, Upload(t, d))
  {
    forall s | s in t.file ensures t.file[s] in t.secretKey {}
  }

  lemma {:induction false} RotatesAndReads<N(!new)>(t: Table<N>, w: World<N>, acts: seq<Action<N>>, r: nat,
                                                    rep: Replica<N>)
    requires r < |w.replicas| && w.replicas[r] == rep && rep.phase.Idle? && w.secret.Some?
    requires acts == [Rotate(r), Remove(r), Regenerate(r), ReadSecret(r)]
    ensures var syncing := Rotated(t, rep, w.runs).(phase := Syncing(w.runs, w.secret.value));
            Run(t, w, acts) == w.(replicas := w.replicas[r := syncing], runs := w.runs + 1)
  {
    var rotated := Rotated(t, rep, w.runs);
    var syncing := rotated.(phase := Syncing(w.runs, w.secret.value));
    assert acts[..3] == [Rotate(r), Remove(r), Regenerate(r)];
    Rotates(t, w, acts[..3], r, rep);
    ReadsSecret(t, Run(t, w, acts[..3]), r, rotated);
    assert w.replicas[r := rotated][r := syncing] == w.replicas[r := syncing];
  }

  // ---- one rotation ----

  lemma {:induction false} RotatedHolds<N(!new)>(t: Table<N>, disk: Disk<N>, f: N, shared: Option<Blob<N>>, run: nat)
    requires Lasts(t, f) && shared.Some? && forall c :: shared.value != Root(run, c)
    ensures Lookup(Generate(t, Strip(t, disk), run), f) == shared <==> Holds(t, disk, f, shared)
  {
  }

  // What a rotation puts into the Secret is what it leaves in the directory.
  lemma {:induction false} RotationWrites<N(!new)>(t: Table<N>, w: World<N>, files: seq<Action<N>>,
                                                   sync: seq<Action<N>>, r: nat, rep: Replica<N>, f: N)
    requires t.Invertible() && f in t.secretKey && r < |w.replicas| && w.replicas[r] == rep && rep.phase.Idle?
    requires w.secret.Some?
    requires files == [Rotate(r), Remove(r), Regenerate(r)] && sync == [ReadSecret(r), PatchSecret(r)]
    ensures Shared(t, Run(t, w, files + sync).secret, f) == Lookup(Generate(t, Strip(t, rep.disk), w.runs), f)
  {
    Rotates(t, w, files, r, rep);
    Syncs(t, Run(t, w, files), sync, r, Rotated(t, rep, w.runs));
    RunAppend(t, w, files, sync);
    var after := Generate(t, Strip(t, rep.disk), w.runs);
    PatchAt(t, w.secret.value, w.secret.value, Upload(t, after), f);
    UploadAt(t, after, f);
  }

  /** A leaf rotation that nobody disturbs keeps a CA or service-account entry of the Secret if and only if, before it,
      the directory holds the bytes of the entry, or those that it is a copy of. The entry is not of a later run. */
  lemma {:induction false} RotationKeepsIff<N(!new)>(t: Table<N>, w: World<N>, files: seq<Action<N>>,
                                                     sync: seq<Action<N>>, r: nat, f: N)
    requires t.Valid() && f in t.Lasting() && r < |w.replicas| && w.replicas[r].phase.Idle?
    requires Shared(t, w.secret, f).Some? && forall c :: Shared(t, w.secret, f).value != Root(w.runs, c)
    requires files == [Rotate(r), Remove(r), Regenerate(r)] && sync == [ReadSecret(r), PatchSecret(r)]
    ensures Shared(t, Run(t, w, files + sync).secret, f) == Shared(t, w.secret, f) <==>
              Holds(t, w.replicas[r].disk, f, Shared(t, w.secret, f))
  {
    RotationWrites(t, w, files, sync, r, w.replicas[r], f);
    LastingLasts(t, f);
    RotatedHolds(t, w.replicas[r].disk, f, Shared(t, w.secret, f), w.runs);
  }

  /** In every run, however its rotations begin, a patch puts its leaves beside the CA that signed them if and only if
      the directory brings its own CA, or the Secret's has not changed since it was read. */
  lemma {:induction false} PatchSignsIff<N(!new)>(t: Table<N>, w: World<N>, actions: seq<Action<N>>, r: nat, f: N)
    requires t.Valid() && f in t.Leaves() && Initial(w) && OldLeaves(t, w) && r < |w.replicas|
    requires Run(t, w, actions).replicas[r].phase.Syncing? && Run(t, w, actions).secret.Some?
    ensures var was, c := Run(t, w, actions), t.issuer[f];
            var rep, after := was.replicas[r], Next(t, was, PatchSecret(r)).secret;
            Signed(Shared(t, after, f), rep.phase.run, f, Shared(t, after, c)) <==>
              (At(t, rep.phase.base, c) == Lookup(rep.disk, c) ==> Shared(t, was.secret, c) == At(t, rep.phase.base, c))
  {
    var was, c := Run(t, w, actions), t.issuer[f];
    var rep := was.replicas[r];
    LeafIsSigned(t, f);
    LeafRun(t, w, actions, f, c);
    assert LeafKeeps(t, rep, f, c, Shared(t, was.secret, f), was.runs);
    PatchesSecret(t, was, r, rep);
    PatchSigns(t, rep, was.secret.value, f, c);
  }

  lemma {:induction false} PatchSigns<N(!new)>(t: Table<N>, rep: Replica<N>, data: Data<N>, f: N, c: N)
    requires t.Invertible() && Signs(t, f, c) && rep.phase.Syncing? && NotOf(At(t, rep.phase.base, f), rep.phase.run)
    requires Signed(Lookup(rep.disk, f), rep.phase.run, f, Lookup(rep.disk, c))
    ensures var after := Patch(data, rep.phase.base, Upload(t, rep.disk));
            Signed(At(t, after, f), rep.phase.run, f, At(t, after, c)) <==>
              (At(t, rep.phase.base, c) == Lookup(rep.disk, c) ==> At(t, data, c) == At(t, rep.phase.base, c))
  {
    UploadAt(t, rep.disk, f);
    UploadAt(t, rep.disk, c);
    PatchAt(t, data, rep.phase.base, Upload(t, rep.disk), f);
    PatchAt(t, data, rep.phase.base, Upload(t, rep.disk), c);
  }

  // ---- failing runs ----

  lemma {:induction false} FreshStart<N(!new)>(t: Table<N>, replicas: nat)
    ensures Initial(Fresh<N>(replicas)) && OldLeaves(t, Fresh<N>(replicas))
  {
  }

  /** A rotation in a directory that nobody has filled gives the Secret a new CA, under a replica that already runs with
      the old one. */
  lemma {:induction false} EarlyRotationReplacesCa<N(!new)>(
    t: Table<N>, start: seq<Action<N>>, files: seq<Action<N>>, sync: seq<Action<N>>, c: N)
    requires t.Valid() && c in t.Sources()
    requires start == [Fetch(0), Regenerate(0), Create(0)]
    requires files == [Rotate(1), Remove(1), Regenerate(1)] && sync == [ReadSecret(1), PatchSecret(1)]
    ensures Shared(t, Run(t, Fresh(2), start).secret, c) == Some(Root(0, c))
    ensures Shared(t, Run(t, Fresh(2), start + (files + sync)).secret, c) == Some(Root(1, c))
  {
    var w := Fresh(2);
    StartsAndCreates(t, w, start, 0, Empty());
    var created := Run(t, w, start);
    RotationWrites(t, created, files, sync, 1, Empty(), c);
    RunAppend(t, w, start, files + sync);
    UploadAt(t, Generate(t, map[], 0), c);
    SourceGenerated(t, map[], c, 0);
    SourceGenerated(t, Strip(t, map[]), c, 1);
  }

  lemma {:induction false} SourceGenerated<N(!new)>(t: Table<N>, disk: Disk<N>, c: N, run: nat)
    requires t.Valid() && c in t.Sources()
    ensures c in t.secretKey && Lookup(Generate(t, disk, run), c) == Some(if c in disk then disk[c] else Root(run, c))
  {
    assert c in t.Lasting() && c !in t.issuer && c != t.admin;
  }

  // The second one rotates before the first one patches.
  lemma {:induction false} Overtaken<N(!new)>(t: Table<N>, w: World<N>, theirs: seq<Action<N>>, sync: seq<Action<N>>,
                                              patch: seq<Action<N>>, first: Replica<N>)
    requires w.secret.Some? && w.replicas == [first, Empty()] && first.phase.Syncing?
    requires theirs == [Rotate(1), Remove(1), Regenerate(1)] && sync == [ReadSecret(1), PatchSecret(1)]
    requires patch == [PatchSecret(0)]
    ensures var data, theirFiles := w.secret.value, Generate(t, Strip(t, map[]), w.runs);
            var now := Run(t, w, theirs + sync + patch);
            && now.patched
            && now.secret == Some(Patch(Patch(data, data, Upload(t, theirFiles)), first.phase.base,
                                        Upload(t, first.disk)))
  {
    Rotates(t, w, theirs, 1, Empty());
    Syncs(t, Run(t, w, theirs), sync, 1, Rotated(t, Empty(), w.runs));
    RunAppend(t, w, theirs, sync);
    PatchesSecret(t, Run(t, w, theirs + sync), 0, first);
    assert patch[..0] == [];
    RunAppend(t, w, theirs + sync, patch);
  }

  // The first replica rotates up to the patch, and the second one all the way in between.
  lemma {:induction false} SecondHalf<N(!new)>(
    t: Table<N>, w: World<N>, mine: seq<Action<N>>, theirs: seq<Action<N>>, sync: seq<Action<N>>,
    patch: seq<Action<N>>, disk: Disk<N>, data: Data<N>)
    requires w.secret == Some(data) && w.replicas == [Replica(disk, Idle, true, true), Empty()] && w.runs == 1
    requires mine == [Rotate(0), Remove(0), Regenerate(0), ReadSecret(0)] && patch == [PatchSecret(0)]
    requires theirs == [Rotate(1), Remove(1), Regenerate(1)] && sync == [ReadSecret(1), PatchSecret(1)]
    ensures var now := Run(t, w, mine + (theirs + sync + patch));
            && now.patched
            && now.secret == Some(Patch(Patch(data, data, Upload(t, Generate(t, Strip(t, map[]), 2))), data,
                                        Upload(t, Generate(t, Strip(t, disk), 1))))
  {
    RotatesAndReads(t, w, mine, 0, w.replicas[0]);
    var syncing := Rotated(t, w.replicas[0], 1).(phase := Syncing(1, data));
    assert w.replicas[0 := syncing] == [syncing, Empty()];
    Overtaken(t, Run(t, w, mine), theirs, sync, patch, syncing);
    RunAppend(t, w, mine, theirs + sync + patch);
  }

  // The Secret of d, patched to theirs and then from d to mine.
  function Mixed<N(==,!new)>(t: Table<N>, d: Disk<N>, mine: Disk<N>, theirs: Disk<N>): Data<N> {
    Patch(Patch(Upload(t, d), Upload(t, d), Upload(t, theirs)), Upload(t, d), Upload(t, mine))
  }

  lemma {:induction false} MixedPatch<N(!new)>(t: Table<N>, d: Disk<N>, mine: Disk<N>, theirs: Disk<N>, f: N, run: nat)
    requires t.Valid() && f in t.Leaves() && d == Generate(t, map[], 0)
    requires mine == Generate(t, Strip(t, Download(t, d, Upload(t, d))), 1) && theirs == Generate(t, Strip(t, map[]), 2)
    ensures !FromOneRun(t, Mixed(t, d, mine, theirs), run)
  {
    var c := t.issuer[f];
    LeafIsSigned(t, f);
    assert c in t.Sources();
    var base, middle := Upload(t, d), Patch(Upload(t, d), Upload(t, d), Upload(t, theirs));
    MineIsOld(t, d, mine, f, c);
    SourceGenerated(t, Strip(t, map[]), c, 2);
    UploadAt(t, d, c);
    UploadAt(t, theirs, c);
    PatchAt(t, base, base, Upload(t, theirs), c);
    PatchAt(t, middle, base, Upload(t, mine), c);
    UploadAt(t, mine, c);
    UploadAt(t, mine, f);
    UploadAt(t, d, f);
    PatchAt(t, middle, base, Upload(t, mine), f);
  }

  // A rotation from the Secret's own files keeps the CA and signs with it.
  lemma {:induction false} MineIsOld<N(!new)>(t: Table<N>, d: Disk<N>, mine: Disk<N>, f: N, c: N)
    requires t.Valid() && Signs(t, f, c) && c in t.Sources() && d == Generate(t, map[], 0)
    requires mine == Generate(t, Strip(t, Download(t, d, Upload(t, d))), 1)
    ensures Lookup(d, c) == Some(Root(0, c)) && Lookup(mine, c) == Some(Root(0, c))
    ensures OfRun(Lookup(d, f), 0) && Lookup(mine, f) == Some(Issued(1, f, Root(0, c)))
  {
    var adopted := Download(t, d, Upload(t, d));
    SourceGenerated(t, map[], c, 0);
    DownloadUndoesUpload(t, d, d, c);
    SourceGenerated(t, Strip(t, adopted), c, 1);
    GeneratedIsSigned(t, map[], 0, f, c);
    GeneratedIsSigned(t, Strip(t, adopted), 1, f, c);
  }

  lemma {:induction false} InterleavedRotations<N(!new)>(
    t: Table<N>, start: seq<Action<N>>, mine: seq<Action<N>>, theirs: seq<Action<N>>, sync: seq<Action<N>>,
    patch: seq<Action<N>>)
    requires t.Valid() && start == [Fetch(0), Regenerate(0), Create(0), Adopt(0)]
    requires mine == [Rotate(0), Remove(0), Regenerate(0), ReadSecret(0)] && patch == [PatchSecret(0)]
    requires theirs == [Rotate(1), Remove(1), Regenerate(1)] && sync == [ReadSecret(1), PatchSecret(1)]
    ensures var d := Generate(t, map[], 0);
            var mineFiles := Generate(t, Strip(t, Download(t, d, Upload(t, d))), 1);
            var now := Run(t, Fresh(2), start + (mine + (theirs + sync + patch)));
            && now.patched && now.secret == Some(Mixed(t, d, mineFiles, Generate(t, Strip(t, map[]), 2)))
  {
    var w := Fresh(2);
    var d := Generate(t, map[], 0);
    StartsUp(t, w, start, 0);
    assert Run(t, w, start).replicas == [Replica(Download(t, d, Upload(t, d)), Idle, true, true), Empty()];
    SecondHalf(t, Run(t, w, start), mine, theirs, sync, patch, Download(t, d, Upload(t, d)), Upload(t, d));
    RunAppend(t, w, start, mine + (theirs + sync + patch));
  }

  /** The same rotation while a running replica is between reading and patching the Secret: in the end all leaves are of
      one run, but beside a CA that never signed them. */
  lemma {:induction false} EarlyRotationBreaksSignatures<N(!new)>(
    t: Table<N>, start: seq<Action<N>>, mine: seq<Action<N>>, theirs: seq<Action<N>>, sync: seq<Action<N>>,
    patch: seq<Action<N>>, run: nat)
    requires t.Valid() && start == [Fetch(0), Regenerate(0), Create(0), Adopt(0)]
    requires mine == [Rotate(0), Remove(0), Regenerate(0), ReadSecret(0)] && patch == [PatchSecret(0)]
    requires theirs == [Rotate(1), Remove(1), Regenerate(1)] && sync == [ReadSecret(1), PatchSecret(1)]
    ensures var now := Run(t, Fresh(2), start + (mine + (theirs + sync + patch)));
            now.secret.Some? && OneRun(t, now.secret.value, now.author) && !FromOneRun(t, now.secret.value, run)
  {
    var d := Generate(t, map[], 0);
    InterleavedRotations(t, start, mine, theirs, sync, patch);
    FreshStart(t, 2);
    SecretFromOneRunIff(t, Fresh(2), start + (mine + (theirs + sync + patch)));
    MixedPatch(t, d, Generate(t, Strip(t, Download(t, d, Upload(t, d))), 1), Generate(t, Strip(t, map[]), 2), t.admin,
               run);
  }

  /** A crash between generating and creating tears the first Secret: the restart renews the admin kubeconfig only. */
  lemma {:induction false} CrashTearsFirstSecret<N(!new)>(t: Table<N>, g: N, first: seq<Action<N>>,
                                                          second: seq<Action<N>>, run: nat)
    requires t.Valid() && g in t.Leaves() && g != t.admin
    requires first == [Fetch(0), Regenerate(0), Crash(0, {})] && second == [Fetch(0), Regenerate(0), Create(0)]
    ensures var now := Run(t, Fresh(1), first + second); now.secret.Some? && !OneRun(t, now.secret.value, run)
  {
    var w := Fresh(1);
    var d := Generate(t, map[], 0);
    FreshStart(t, 1);
    StartsAndCrashes(t, w, Fetch(0), first, 0, Empty());
    StartsAndCreates(t, Run(t, w, first), second, 0, Replica(d, Idle, false, false));
    RunAppend(t, w, first, second);
    assert g in d && !NoLeaves(t, d);
    SecretFromOneRunIff(t, w, first + second);
  }

  /** Why agreement is about the latest call: a request that fails though the Secret exists makes a running replica
      write an admin kubeconfig of its own, and a crash leaves it there. */
  lemma {:induction false} FailedFetchReplacesAdmin<N(!new)>(t: Table<N>, start: seq<Action<N>>, again: seq<Action<N>>)
    requires t.Valid() && start == [Fetch(0), Regenerate(0), Create(0), Adopt(0)]
    requires again == [FetchFails(0), Regenerate(0), Crash(0, {})]
    ensures var now := Run(t, Fresh(1), start + again);
            now.replicas[0].ready && Lookup(now.replicas[0].disk, t.admin) != Shared(t, now.secret, t.admin)
  {
    var w := Fresh(1);
    var d := Generate(t, map[], 0);
    var adopted := Download(t, d, Upload(t, d));
    StartsUp(t, w, start, 0);
    StartsAndCrashes(t, Run(t, w, start), FetchFails(0), again, 0, Replica(adopted, Idle, true, true));
    RunAppend(t, w, start, again);
    TwoAdmins(t, d, adopted);
  }

  lemma {:induction false} TwoAdmins<N(!new)>(t: Table<N>, d: Disk<N>, now: Disk<N>)
    requires t.Valid() && d == Generate(t, map[], 0)
    ensures Lookup(Generate(t, now, 1), t.admin) != At(t, Upload(t, d), t.admin)
  {
    UploadAt(t, d, t.admin);
    assert t.admin in t.issuer;
    assert OfRun(Lookup(d, t.admin), 0) && OfRun(Lookup(Generate(t, now, 1), t.admin), 1);
  }
}
