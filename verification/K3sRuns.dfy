// pkg/k8s/migrate.go: when a migration happens, and what it has done when nobody disturbs it.
module K3sRuns {
  import opened Common
  import opened CertTable
  import opened K3sMigration
  import Upgrades

  // ---- steps of one replica ----

  lemma {:induction false} Step(w: World, a: Action, rep: Replica, after: Replica)
    requires !a.OtherCreate? && !a.OtherWrite? && !a.Update? && a.r < |w.replicas| && w.replicas[a.r] == rep
    requires after == ReplicaAfter(w, rep, a)
    ensures Next(w, a) == w.(replicas := w.replicas[a.r := after])
  {
  }

  lemma {:induction false} RunOne(w: World, a: Action)
    ensures Run(w, [a]) == Next(w, a)
  {
    assert [a][..0] == [];
  }

  lemma {:induction false} RunAppend(w: World, first: seq<Action>, second: seq<Action>)
    ensures Run(w, first + second) == Run(Run(w, first), second)
  {
    if second == [] {
      assert first + second == first;
    } else {
      var n, all := |second| - 1, first + second;
      assert all[..|all| - 1] == first + second[..n] && all[|all| - 1] == second[n];
      assert Run(w, all) == Next(Run(w, first + second[..n]), second[n]);
      RunAppend(w, first, second[..n]);
    }
  }

  lemma {:induction false} RunThree(w: World, acts: seq<Action>, a: Action, b: Action, c: Action)
    requires acts == [a, b, c]
    ensures Run(w, acts) == Next(Next(Next(w, a), b), c)
  {
    RunOne(w, a);
    RunAppend(w, [a], [b]);
    RunOne(Next(w, a), b);
    RunAppend(w, [a] + [b], [c]);
    RunOne(Next(Next(w, a), b), c);
    assert acts == [a] + [b] + [c];
  }

  // ---- before the Secret ----

  function AllRenamed(files: Files): Files {
    Renamed(Renamed(Renamed(files, State), Wal), Shm)
  }

  lemma {:induction false} RenamedAt(files: Files, part: Part, p: Path)
    ensures At(Renamed(files, part), p) ==
              if p == OldDb(part) then None
              else if p == NewDb(part) && OldDb(part) in files then At(files, OldDb(part))
              else At(files, p)
  {
  }

  lemma {:induction false} AllRenamedAt(files: Files, p: Path)
    ensures At(AllRenamed(files), p) ==
              match p
              case OldDb(_) => None
              case NewDb(part) => if OldDb(part) in files then At(files, OldDb(part)) else At(files, p)
              case Source(_) => At(files, p)
  {
    var one := Renamed(files, State);
    var two := Renamed(one, Wal);
    RenamedAt(two, Shm, p);
    RenamedAt(one, Wal, p);
    RenamedAt(files, State, p);
    if p.NewDb? {
      RenamedAt(one, Wal, OldDb(p.part));
      RenamedAt(files, State, OldDb(p.part));
      match p.part { case State => case Wal => case Shm => }
    } else if p.OldDb? {
      match p.part { case State => case Wal => case Shm => }
    }
  }

  predicate Applies(w: World, rep: Replica) {
    rep.tlsDir && !w.privateNodes
  }

  // The files once the database has been moved, if it is to be.
  function MovedFiles(w: World, rep: Replica): Files {
    if Applies(w, rep) && Embedded(w.store) then AllRenamed(rep.files) else rep.files
  }

  lemma {:induction false} RunFour(w: World, acts: seq<Action>, a: Action, b: Action, c: Action, d: Action)
    requires acts == [a, b, c, d]
    ensures Run(w, acts) == Next(Next(Next(Next(w, a), b), c), d)
  {
    RunThree(w, [a, b, c], a, b, c);
    assert acts[..3] == [a, b, c];
  }

  // A rename by a replica that is not, or no longer, at it.
  lemma {:induction false} NoRename(w: World, r: nat)
    requires r < |w.replicas| && !w.replicas[r].pc.Renaming?
    ensures Next(w, Rename(r, false)) == w
  {
    assert w.replicas[r := w.replicas[r]] == w.replicas;
  }

  lemma {:induction false} OneRename(w: World, r: nat, rep: Replica, part: Part)
    requires r < |w.replicas| && w.replicas[r] == rep && rep.pc == Renaming(part)
    ensures var after := rep.(files := Renamed(rep.files, part), pc := AfterRename(part));
            Next(w, Rename(r, false)) == w.(replicas := w.replicas[r := after])
  {
    Step(w, Rename(r, false), rep, rep.(files := Renamed(rep.files, part), pc := AfterRename(part)));
  }

  lemma {:induction false} ThreeRenames(w: World, r: nat, rep: Replica)
    requires r < |w.replicas| && w.replicas[r] == rep && rep.pc == Renaming(State)
    ensures var rename, moved := Rename(r, false), rep.(files := AllRenamed(rep.files), pc := Getting);
            Next(Next(Next(w, rename), rename), rename) == w.(replicas := w.replicas[r := moved])
  {
    var rename := Rename(r, false);
    var two := rep.(files := Renamed(rep.files, State), pc := Renaming(Wal));
    var three := rep.(files := Renamed(two.files, Wal), pc := Renaming(Shm));
    var four := rep.(files := AllRenamed(rep.files), pc := Getting);
    OneRename(w, r, rep, State);
    OneRename(Next(w, rename), r, two, Wal);
    OneRename(Next(Next(w, rename), rename), r, three, Shm);
    assert w.replicas[r := two][r := three][r := four] == w.replicas[r := four];
  }

  lemma {:induction false} Moves(w: World, r: nat, acts: seq<Action>, rep: Replica)
    requires r < |w.replicas| && w.replicas[r] == rep && rep.pc.Stopped?
    requires acts == [Start(r), Rename(r, false), Rename(r, false), Rename(r, false)]
    ensures Run(w, acts) == w.(replicas := w.replicas[r := rep.(files := MovedFiles(w, rep),
                                                               pc := if Applies(w, rep) then Getting else Stopped)])
  {
    var rename := Rename(r, false);
    var begun := Begin(w, rep);
    RunFour(w, acts, Start(r), rename, rename, rename);
    Step(w, Start(r), rep, begun);
    var w1 := Next(w, Start(r));
    if begun.pc.Renaming? {
      ThreeRenames(w1, r, begun);
      var moved := rep.(files := AllRenamed(rep.files), pc := Getting);
      assert w.replicas[r := begun][r := moved] == w.replicas[r := moved];
    } else {
      NoRename(w1, r);
    }
  }

  // ---- the Secret ----

  // What the last three steps find.
  predicate Ready(w: World, rep: Replica) {
    rep.pc.Getting? && w.secret.Some? && !w.secret.value.migrated && HasSources(rep.files)
  }

  function Above(files: Files): Files {
    map p | p in files && !BelowServer(p) :: files[p]
  }

  lemma {:induction false} Updates(w: World, r: nat, rep: Replica)
    requires r < |w.replicas| && w.replicas[r] == rep && CanUpdate(w, rep)
    ensures Next(w, Update(r)) ==
              w.(secret := Some(Secret(rep.pc.secret.data + Sources(rep.files), true, w.secret.value.version + 1)),
                 replicas := w.replicas[r := rep.(pc := Removing, updated := true)], migrations := w.migrations + 1)
  {
  }

  lemma {:induction false} GetsAndUpdates(w: World, r: nat, rep: Replica)
    requires r < |w.replicas| && w.replicas[r] == rep && Ready(w, rep)
    ensures var secret := w.secret.value;
            Next(Next(w, Get(r)), Update(r)) ==
              w.(secret := Some(Secret(secret.data + Sources(rep.files), true, secret.version + 1)),
                 replicas := w.replicas[r := rep.(pc := Removing, updated := true)], migrations := w.migrations + 1)
  {
    var got := rep.(pc := Got(w.secret.value));
    Step(w, Get(r), rep, got);
    Updates(Next(w, Get(r)), r, got);
    var removing := rep.(pc := Removing, updated := true);
    assert w.replicas[r := got][r := removing] == w.replicas[r := removing];
  }

  // The world after the last three steps, in terms of the one before them.
  ghost predicate Finished(w: World, r: nat, files: Files, now: World)
    requires r < |w.replicas| && w.secret.Some? && HasSources(files)
  {
    now == w.(secret := Some(Secret(w.secret.value.data + Sources(files), true, w.secret.value.version + 1)),
              replicas := w.replicas[r := Replica(Above(files), false, Stopped, true, true)],
              migrations := w.migrations + 1)
  }

  lemma {:induction false} Finishes(w: World, r: nat, acts: seq<Action>, rep: Replica)
    requires r < |w.replicas| && w.replicas[r] == rep && acts == [Get(r), Update(r), Remove(r)] && Ready(w, rep)
    ensures Finished(w, r, rep.files, Run(w, acts))
  {
    var removing := rep.(pc := Removing, updated := true);
    var removed := Replica(Above(rep.files), false, Stopped, true, true);
    RunThree(w, acts, Get(r), Update(r), Remove(r));
    GetsAndUpdates(w, r, rep);
    Step(Next(Next(w, Get(r)), Update(r)), Remove(r), removing, removed);
    assert w.replicas[r := removing][r := removed] == w.replicas[r := removed];
  }

  lemma {:induction false} GetsWithout(w: World, r: nat, rep: Replica)
    requires (rep.pc.Getting? || rep.pc.Stopped?) && !Ready(w, rep)
    ensures var one := ReplicaAfter(w, rep, Get(r));
            && one.(pc := Stopped) == rep.(pc := Stopped)
            && (one.pc.Stopped? || (one.pc.Got? && !HasSources(one.files)))
  {
  }

  // Without what it needs the replica stops, and nothing but that has happened.
  lemma {:induction false} GivesUp(w: World, r: nat, acts: seq<Action>, rep: Replica)
    requires r < |w.replicas| && w.replicas[r] == rep && acts == [Get(r), Update(r), Remove(r)]
    requires (rep.pc.Getting? || rep.pc.Stopped?) && !Ready(w, rep)
    ensures Run(w, acts) == w.(replicas := w.replicas[r := rep.(pc := Stopped)])
  {
    var one := ReplicaAfter(w, rep, Get(r));
    var stopped := rep.(pc := Stopped);
    RunThree(w, acts, Get(r), Update(r), Remove(r));
    GetsWithout(w, r, rep);
    Step(w, Get(r), rep, one);
    var w1 := Next(w, Get(r));
    NoUpdate(w1, r, one);
    assert w.replicas[r := one][r := stopped] == w.replicas[r := stopped];
    Step(Next(w1, Update(r)), Remove(r), stopped, stopped);
    assert w.replicas[r := stopped][r := stopped] == w.replicas[r := stopped];
  }

  lemma {:induction false} NoUpdate(w: World, r: nat, rep: Replica)
    requires r < |w.replicas| && w.replicas[r] == rep
    requires rep.pc.Stopped? || (rep.pc.Got? && !HasSources(rep.files))
    ensures Next(w, Update(r)) == w.(replicas := w.replicas[r := rep.(pc := Stopped)])
  {
  }

  // ---- the whole migration ----

  // What a replica needs in order to migrate.
  predicate WillMigrate(w: World, rep: Replica) {
    rep.tlsDir && !w.privateNodes && w.secret.Some? && !w.secret.value.migrated && HasSources(rep.files)
  }

  lemma {:induction false} MovingKeepsSources(w: World, rep: Replica)
    ensures HasSources(MovedFiles(w, rep)) <==> HasSources(rep.files)
  {
    forall e ensures Source(e) in AllRenamed(rep.files) <==> Source(e) in rep.files {
      AllRenamedAt(rep.files, Source(e));
    }
  }

  lemma {:induction false} MigrationFails(w: World, r: nat, move: seq<Action>, finish: seq<Action>, rep: Replica)
    requires r < |w.replicas| && w.replicas[r] == rep && rep.pc.Stopped? && !WillMigrate(w, rep)
    requires move == [Start(r), Rename(r, false), Rename(r, false), Rename(r, false)]
    requires finish == [Get(r), Update(r), Remove(r)]
    ensures Run(w, move + finish) == w.(replicas := w.replicas[r := rep.(files := MovedFiles(w, rep))])
  {
    var moved := rep.(files := MovedFiles(w, rep), pc := if Applies(w, rep) then Getting else Stopped);
    Moves(w, r, move, rep);
    RunAppend(w, move, finish);
    MovingKeepsSources(w, rep);
    GivesUp(Run(w, move), r, finish, moved);
    assert moved.(pc := Stopped) == rep.(files := moved.files);
    assert w.replicas[r := moved][r := moved.(pc := Stopped)] == w.replicas[r := moved.(pc := Stopped)];
  }

  lemma {:induction false} FinishedBefore(w: World, r: nat, moved: Replica, now: World)
    requires r < |w.replicas| && w.secret.Some? && HasSources(moved.files)
    requires Finished(w.(replicas := w.replicas[r := moved]), r, moved.files, now)
    ensures Finished(w, r, moved.files, now)
  {
    var removed := Replica(Above(moved.files), false, Stopped, true, true);
    assert w.replicas[r := moved][r := removed] == w.replicas[r := removed];
  }

  lemma {:induction false} MigrationSucceeds(w: World, r: nat, move: seq<Action>, finish: seq<Action>, rep: Replica)
    requires r < |w.replicas| && w.replicas[r] == rep && rep.pc.Stopped? && WillMigrate(w, rep)
    requires move == [Start(r), Rename(r, false), Rename(r, false), Rename(r, false)]
    requires finish == [Get(r), Update(r), Remove(r)]
    ensures HasSources(MovedFiles(w, rep)) && Finished(w, r, MovedFiles(w, rep), Run(w, move + finish))
  {
    var moved := rep.(files := MovedFiles(w, rep), pc := Getting);
    Moves(w, r, move, rep);
    RunAppend(w, move, finish);
    MovingKeepsSources(w, rep);
    Finishes(Run(w, move), r, finish, moved);
    FinishedBefore(w, r, moved, Run(w, move + finish));
  }

  /** The call migrates, if nobody disturbs it, if and only if there is a TLS directory of k3s, private nodes are off,
      the Secret is there and not migrated, and no k3s file is missing. Otherwise the Secret and the directory stay, but
      for the database, which moves as soon as there is a TLS directory and private nodes are off. */
  lemma {:induction false} MigratesIff(w: World, r: nat, move: seq<Action>, finish: seq<Action>, e: Entry)
    requires r < |w.replicas| && w.replicas[r].pc.Stopped?
    requires move == [Start(r), Rename(r, false), Rename(r, false), Rename(r, false)]
    requires finish == [Get(r), Update(r), Remove(r)]
    ensures var rep, now := w.replicas[r], Run(w, move + finish);
            && (now.migrations == w.migrations + 1 <==> WillMigrate(w, rep))
            && (!WillMigrate(w, rep) ==>
                  && now.secret == w.secret && now.migrations == w.migrations && now.replicas[r].tlsDir == rep.tlsDir
                  && At(now.replicas[r].files, Source(e)) == At(rep.files, Source(e)))
            && (!rep.tlsDir || w.privateNodes ==> now == w)
  {
    var rep := w.replicas[r];
    if WillMigrate(w, rep) {
      MigrationSucceeds(w, r, move, finish, rep);
    } else {
      MigrationFails(w, r, move, finish, rep);
      AllRenamedAt(rep.files, Source(e));
      assert w.replicas[r := rep] == w.replicas;
    }
  }

  // An entry of the Secret once the k3s files are in.
  ghost predicate TookOver(was: map<Entry, Bytes>, files: Files, now: map<Entry, Bytes>, e: Entry)
    requires HasSources(files)
  {
    if e in Entries() then
      && e in now
      && now[e] == if e == AdminConf || e == ControllerConf || e == SchedulerConf
                   then Inlined(files[Source(e)]) else files[Source(e)]
    else (e in now <==> e in was) && (e in was ==> now[e] == was[e])
  }

  lemma {:induction false} SourcesTakeOver(was: map<Entry, Bytes>, files: Files, moved: Files, e: Entry)
    requires HasSources(files) && HasSources(moved) && At(moved, Source(e)) == At(files, Source(e))
    ensures TookOver(was, files, was + Sources(moved), e)
  {
  }

  /** Afterwards the Secret is marked and holds the replica's own k3s files, and what it held for all other entries; the
      directory of k3s is gone, and an embedded database, if there was one, is at its new place. */
  lemma {:induction false} MigratedState(w: World, r: nat, move: seq<Action>, finish: seq<Action>, e: Entry, part: Part)
    requires r < |w.replicas| && w.replicas[r].pc.Stopped? && WillMigrate(w, w.replicas[r])
    requires move == [Start(r), Rename(r, false), Rename(r, false), Rename(r, false)]
    requires finish == [Get(r), Update(r), Remove(r)]
    ensures var was, files, now := w.secret.value, w.replicas[r].files, Run(w, move + finish);
            && Migrated(now)
            && TookOver(was.data, files, now.secret.value.data, e)
            && !now.replicas[r].tlsDir && Source(e) !in now.replicas[r].files && OldDb(part) !in now.replicas[r].files
            && (w.store == Upgrades.EmbeddedDatabase || w.store == Upgrades.EmbeddedEtcd ==>
                  At(now.replicas[r].files, NewDb(part)) ==
                    if OldDb(part) in files then At(files, OldDb(part)) else At(files, NewDb(part)))
  {
    var rep := w.replicas[r];
    MigrationSucceeds(w, r, move, finish, rep);
    AllRenamedAt(rep.files, Source(e));
    AllRenamedAt(rep.files, NewDb(part));
    SourcesTakeOver(w.secret.value.data, rep.files, MovedFiles(w, rep), e);
    assert w.replicas[r := Replica(Above(MovedFiles(w, rep)), false, Stopped, true, true)][r].files ==
           Above(MovedFiles(w, rep));
  }

  lemma {:induction false} Conflicts(w: World, r: nat, rep: Replica)
    requires r < |w.replicas| && w.replicas[r] == rep && rep.pc.Got? && HasSources(rep.files)
    requires w.secret.Some? && w.secret.value.version != rep.pc.secret.version
    ensures Next(w, Update(r)) == w.(replicas := w.replicas[r := rep.(pc := Conflicted)])
  {
  }

  lemma {:induction false} Retries(w: World, r: nat, rep: Replica)
    requires r < |w.replicas| && w.replicas[r] == rep && rep.pc.Conflicted?
    ensures Next(w, Retry(r)) == w.(replicas := w.replicas[r := Begin(w, rep)])
  {
    Step(w, Retry(r), rep, Begin(w, rep));
  }

  /** An update that meets a newer Secret changes nothing, and the call starts over. */
  lemma {:induction false} ConflictStartsOver(w: World, r: nat, rep: Replica, acts: seq<Action>)
    requires r < |w.replicas| && w.replicas[r] == rep && rep.pc.Got? && HasSources(rep.files)
    requires w.secret.Some? && w.secret.value.version != rep.pc.secret.version && acts == [Update(r)] + [Retry(r)]
    ensures var stopped := w.(replicas := w.replicas[r := rep.(pc := Stopped)]);
            Run(w, acts) == Next(stopped, Start(r))
  {
    var conflicted, stopped, begun := rep.(pc := Conflicted), rep.(pc := Stopped), Begin(w, rep);
    RunAppend(w, [Update(r)], [Retry(r)]);
    RunOne(w, Update(r));
    RunOne(Next(w, Update(r)), Retry(r));
    Conflicts(w, r, rep);
    Retries(Next(w, Update(r)), r, conflicted);
    Step(w.(replicas := w.replicas[r := stopped]), Start(r), stopped, begun);
    assert w.replicas[r := conflicted][r := begun] == w.replicas[r := begun];
    assert w.replicas[r := stopped][r := begun] == w.replicas[r := begun];
  }

  // ---- replicas that have nothing to migrate ----

  /** In every run a replica without a TLS directory of k3s, and every replica with private nodes, keeps its files, and
      none of its steps changes the Secret. */
  lemma {:induction false} NothingToMigrate(w: World, actions: seq<Action>, r: nat, i: nat)
    requires r < |w.replicas| && w.replicas[r].pc.Stopped? && (w.privateNodes || !w.replicas[r].tlsDir)
    requires i < |actions| && !actions[i].OtherCreate? && !actions[i].OtherWrite? && actions[i].r == r
    ensures Run(w, actions).replicas[r] == w.replicas[r]
    ensures Run(w, actions[..i + 1]).secret == Run(w, actions[..i]).secret
  {
    StaysAsItIs(w, actions, r);
    StaysAsItIs(w, actions[..i], r);
    assert actions[..i + 1][..i] == actions[..i];
  }

  lemma {:induction false} StaysAsItIs(w: World, actions: seq<Action>, r: nat)
    requires r < |w.replicas| && w.replicas[r].pc.Stopped? && (w.privateNodes || !w.replicas[r].tlsDir)
    ensures Run(w, actions).replicas[r] == w.replicas[r]
  {
    if actions != [] {
      StaysAsItIs(w, actions[..|actions| - 1], r);
    }
  }
}
