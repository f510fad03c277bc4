// pkg/k8s/migrate.go: replicas move from k3s to k8s across crashes and restarts. Each has its own data
// directory; the certs Secret is shared and updated under optimistic concurrency.
module K3sMigration {
  import opened Common
  import opened CertTable
  import Upgrades

  // Opaque file contents; a kubeconfig is stored with its certificates inlined.
  datatype Bytes = Raw(id: int) | Inlined(of: Bytes)

  datatype Part = State | Wal | Shm

  // OldDb and Source live below /data/server, NewDb does not.
  datatype Path = OldDb(part: Part) | NewDb(part: Part) | Source(entry: Entry)

  type Files = map<Path, Bytes>

  // k3sTLS and k3sKubeConfig: the Secret entries that the migration overwrites.
  const TLS_ENTRIES: set<Entry> := {
    ApiServerCrt, ApiServerKey, ServerCaCrt, ServerCaKey, ClientCaCrt, ClientCaKey,
    FrontProxyCaCrt, FrontProxyCaKey, FrontProxyClientCrt, FrontProxyClientKey, SaKey, SaPub}
  const KUBECONFIG_ENTRIES: set<Entry> := {AdminConf, ControllerConf, SchedulerConf}

  function Entries(): set<Entry> { TLS_ENTRIES + KUBECONFIG_ENTRIES }

  function Content(e: Entry, b: Bytes): Bytes {
    if e in KUBECONFIG_ENTRIES then Inlined(b) else b
  }

  // ---- the data directory ----

  // renameIfExists
  function Renamed(files: Files, part: Part): Files {
    if OldDb(part) in files then (files - {OldDb(part)})[NewDb(part) := files[OldDb(part)]] else files
  }

  predicate BelowServer(p: Path) {
    !p.NewDb?
  }

  predicate HasSources(files: Files) {
    forall e :: e in Entries() ==> Source(e) in files
  }

  function Sources(files: Files): map<Entry, Bytes>
    requires HasSources(files)
  {
    map e | e in Entries() :: Content(e, files[Source(e)])
  }

  class DataDir {
    var files: Files

    constructor (files: Files)
      ensures this.files == files
    {
      this.files := files;
    }

    method RenameIfExists(part: Part, fails: bool) returns (ok: bool)
      modifies this
      ensures ok <==> OldDb(part) !in old(files) || !fails
      ensures files == if ok then Renamed(old(files), part) else old(files)
    {
      if OldDb(part) !in files {
        return true;
      }
      if fails {
        return false;
      }
      var bytes := files[OldDb(part)];
      files := files - {OldDb(part)};
      files := files[NewDb(part) := bytes];
      return true;
    }

    /** The two loops that fill secret.Data, in any order; None when a k3s file is missing. */
    method FillData(data: map<Entry, Bytes>) returns (out: Option<map<Entry, Bytes>>)
      ensures out.Some? <==> forall e :: e in Entries() ==> Source(e) in files
      ensures out.Some? ==> out.value == data + Sources(files)
    {
      var filled := data;
      var first := FillFrom(KUBECONFIG_ENTRIES, filled);
      if first.None? {
        return None;
      }
      var second := FillFrom(TLS_ENTRIES, first.value);
      if second.None? {
        return None;
      }
      FillBoth(data, files);
      out := second;
    }

    method FillFrom(table: set<Entry>, data: map<Entry, Bytes>) returns (out: Option<map<Entry, Bytes>>)
      ensures out.Some? <==> forall e :: e in table ==> Source(e) in files
      ensures out.Some? ==> out.value == data + Read(files, table)
    {
      var todo, filled := table, data;
      ghost var done: set<Entry> := {};
      while todo != {}
        invariant done + todo == table && done !! todo
        invariant forall e :: e in done ==> Source(e) in files
        invariant filled == data + Read(files, done)
        decreases |todo|
      {
        var e :| e in todo;
        if Source(e) !in files {
          return None;
        }
        filled := filled[e := Content(e, files[Source(e)])];
        ReadOne(files, done, e, data);
        done, todo := done + {e}, todo - {e};
      }
      assert done == table;
      out := Some(filled);
    }
  }

  function Read(files: Files, table: set<Entry>): map<Entry, Bytes> {
    map e | e in table && Source(e) in files :: Content(e, files[Source(e)])
  }

  lemma {:induction false} ReadOne(files: Files, table: set<Entry>, e: Entry, data: map<Entry, Bytes>)
    requires Source(e) in files
    ensures data + Read(files, table + {e}) == (data + Read(files, table))[e := Content(e, files[Source(e)])]
  {
  }

  lemma {:induction false} FillBoth(data: map<Entry, Bytes>, files: Files)
    requires forall e :: e in Entries() ==> Source(e) in files
    ensures data + Read(files, KUBECONFIG_ENTRIES) + Read(files, TLS_ENTRIES) == data + Sources(files)
  {
    var k, t := Read(files, KUBECONFIG_ENTRIES), Read(files, TLS_ENTRIES);
    assert k + t == Sources(files);
    assert data + k + t == data + (k + t);
  }

  // ---- the protocol ----

  datatype Secret = Secret(data: map<Entry, Bytes>, migrated: bool, version: nat)

  datatype Pc =
    | Stopped
    | Renaming(part: Part)
    | Getting
    | Got(secret: Secret)   // not yet migrated when it was read
    | Conflicted
    | Removing

  // updated: its own Update succeeded; removed: it began to delete /data/server.
  datatype Replica = Replica(files: Files, tlsDir: bool, pc: Pc, updated: bool, removed: bool)

  // migrations counts the Secret updates that the migration made.
  datatype World = World(
    secret: Option<Secret>, replicas: seq<Replica>, store: Upgrades.StoreType, privateNodes: bool, migrations: nat)

  datatype Action =
    | Start(r: nat)
    | Rename(r: nat, fails: bool)
    | Get(r: nat)
    | Update(r: nat)
    | Retry(r: nat)
    | Remove(r: nat)
    | Crash(r: nat, gone: set<Path>, tlsGone: bool)  // while deleting, some of the files may be gone
    | OtherCreate(data: map<Entry, Bytes>)           // another controller creates the Secret
    | OtherWrite(data: map<Entry, Bytes>)            // or writes its data

  predicate Embedded(store: Upgrades.StoreType) {
    store == Upgrades.EmbeddedDatabase || store == Upgrades.EmbeddedEtcd
  }

  function Begin(w: World, rep: Replica): Replica {
    if !rep.tlsDir || w.privateNodes then rep.(pc := Stopped)
    else if Embedded(w.store) then rep.(pc := Renaming(State))
    else rep.(pc := Getting)
  }

  function AfterRename(part: Part): Pc {
    match part case State => Renaming(Wal) case Wal => Renaming(Shm) case Shm => Getting
  }

  predicate CanUpdate(w: World, rep: Replica) {
    rep.pc.Got? && w.secret.Some? && w.secret.value.version == rep.pc.secret.version && HasSources(rep.files)
  }

  function ReplicaAfter(w: World, rep: Replica, a: Action): Replica {
    match (a, rep.pc)
    case (Start(_), Stopped) => Begin(w, rep)
    case (Rename(_, fails), Renaming(part)) =>
      if fails && OldDb(part) in rep.files then rep.(pc := Stopped)
      else rep.(files := Renamed(rep.files, part), pc := AfterRename(part))
    case (Get(_), Getting) =>
      if w.secret.Some? && !w.secret.value.migrated then rep.(pc := Got(w.secret.value)) else rep.(pc := Stopped)
    case (Update(_), Got(_)) =>
      if CanUpdate(w, rep) then rep.(pc := Removing, updated := true)
      else if HasSources(rep.files) then rep.(pc := Conflicted)
      else rep.(pc := Stopped)
    case (Retry(_), Conflicted) => Begin(w, rep)
    case (Remove(_), Removing) =>
      rep.(files := map p | p in rep.files && !BelowServer(p) :: rep.files[p],
           tlsDir := false, pc := Stopped, removed := true)
    case (Crash(_, gone, tlsGone), Removing) =>
      rep.(files := map p | p in rep.files && !(BelowServer(p) && p in gone) :: rep.files[p],
           tlsDir := rep.tlsDir && !tlsGone, pc := Stopped, removed := true)
    case (Crash(_, _, _), _) => rep.(pc := Stopped)
    case _ => rep
  }

  function SecretAfter(w: World, rep: Replica, a: Action): Option<Secret> {
    if a.Update? && CanUpdate(w, rep) then
      Some(Secret(rep.pc.secret.data + Sources(rep.files), true, w.secret.value.version + 1))
    else w.secret
  }

  function Next(w: World, a: Action): (w': World)
    ensures |w'.replicas| == |w.replicas| && w'.store == w.store && w'.privateNodes == w.privateNodes
  {
    if a.OtherCreate? then
      if w.secret.None? then w.(secret := Some(Secret(a.data, false, 1))) else w
    else if a.OtherWrite? then
      if w.secret.None? then w
      else w.(secret := Some(Secret(a.data, w.secret.value.migrated, w.secret.value.version + 1)))
    else if a.r >= |w.replicas| then w
    else
      var rep := w.replicas[a.r];
      var migrates := a.Update? && CanUpdate(w, rep);
      w.(secret := SecretAfter(w, rep, a),
         replicas := w.replicas[a.r := ReplicaAfter(w, rep, a)],
         migrations := w.migrations + if migrates then 1 else 0)
  }

  function Run(w: World, actions: seq<Action>): (w': World)
    ensures |w'.replicas| == |w.replicas| && w'.store == w.store && w'.privateNodes == w.privateNodes
  {
    if actions == [] then w else Next(Run(w, actions[..|actions| - 1]), actions[|actions| - 1])
  }

  // Nothing has run; the new database paths are free. The Secret may be there, even migrated already.
  ghost predicate Initial(w: World) {
    && w.migrations == 0
    && forall r :: 0 <= r < |w.replicas| ==>
         && w.replicas[r].pc == Stopped && !w.replicas[r].updated && !w.replicas[r].removed
         && forall part :: NewDb(part) !in w.replicas[r].files
  }

  predicate Migrated(w: World) {
    w.secret.Some? && w.secret.value.migrated
  }

  // ---- the Secret ----

  // What a replica read is an older version, or still the current one.
  ghost predicate ReadInv(secret: Option<Secret>, rep: Replica) {
    && (rep.removed || rep.pc.Removing? ==> rep.updated)
    && (rep.updated ==> secret.Some? && secret.value.migrated)
    && (rep.pc.Got? ==>
          && secret.Some? && !rep.pc.secret.migrated && rep.pc.secret.version <= secret.value.version
          && (rep.pc.secret.version == secret.value.version ==> rep.pc.secret == secret.value))
  }

  // given: the Secret was migrated from the start.
  ghost predicate SecretInv(w: World, given: bool) {
    && w.migrations == (if Migrated(w) && !given then 1 else 0)
    && (given ==> Migrated(w) && forall r :: 0 <= r < |w.replicas| ==> !w.replicas[r].updated)
    && (forall r :: 0 <= r < |w.replicas| ==> ReadInv(w.secret, w.replicas[r]))
    && (forall q, r :: 0 <= q < r < |w.replicas| ==> !(w.replicas[q].updated && w.replicas[r].updated))
  }

  lemma {:induction false} UpdateIsFirst(w: World, rep: Replica)
    requires ReadInv(w.secret, rep) && CanUpdate(w, rep)
    ensures !Migrated(w) && w.secret.value == rep.pc.secret
  {
  }

  // How the Secret may move: it stays, or its version grows and its annotation is kept.
  ghost predicate Moves(before: Option<Secret>, after: Option<Secret>) {
    || after == before
    || (after.Some? && (before.Some? ==>
        before.value.version < after.value.version && (before.value.migrated ==> after.value.migrated)))
  }

  lemma {:induction false} ReadOther(rep: Replica, before: Option<Secret>, after: Option<Secret>)
    requires ReadInv(before, rep) && Moves(before, after)
    ensures ReadInv(after, rep)
  {
  }

  lemma {:induction false} ReadSelf(w: World, rep: Replica, a: Action)
    requires ReadInv(w.secret, rep)
    ensures ReadInv(SecretAfter(w, rep, a), ReplicaAfter(w, rep, a)) && Moves(w.secret, SecretAfter(w, rep, a))
    ensures ReplicaAfter(w, rep, a).updated <==> rep.updated || (a.Update? && CanUpdate(w, rep))
  {
  }

  // The step is a successful Update of replica r.
  predicate Migrates(w: World, a: Action, r: nat)
    requires r < |w.replicas|
  {
    a.Update? && a.r == r && CanUpdate(w, w.replicas[r])
  }

  // A replica that acts, and one that does not.
  lemma {:induction false} StepOfSelf(w: World, a: Action)
    requires !a.OtherCreate? && !a.OtherWrite? && a.r < |w.replicas| && ReadInv(w.secret, w.replicas[a.r])
    ensures ReadInv(Next(w, a).secret, Next(w, a).replicas[a.r]) && Moves(w.secret, Next(w, a).secret)
    ensures Next(w, a).replicas[a.r].updated <==> w.replicas[a.r].updated || Migrates(w, a, a.r)
  {
    ReadSelf(w, w.replicas[a.r], a);
  }

  lemma {:induction false} SecretMoves(w: World, a: Action)
    requires forall q :: 0 <= q < |w.replicas| ==> ReadInv(w.secret, w.replicas[q])
    ensures Moves(w.secret, Next(w, a).secret)
  {
    if !a.OtherCreate? && !a.OtherWrite? && a.r < |w.replicas| {
      StepOfSelf(w, a);
    }
  }

  lemma {:induction false} StepAt(w: World, a: Action, r: nat)
    requires r < |w.replicas|
    requires forall q :: 0 <= q < |w.replicas| ==> ReadInv(w.secret, w.replicas[q])
    ensures ReadInv(Next(w, a).secret, Next(w, a).replicas[r])
    ensures Next(w, a).replicas[r].updated <==> w.replicas[r].updated || Migrates(w, a, r)
  {
    if !a.OtherCreate? && !a.OtherWrite? && a.r == r {
      StepOfSelf(w, a);
    } else {
      SecretMoves(w, a);
      ReadOther(w.replicas[r], w.secret, Next(w, a).secret);
    }
  }

  lemma {:induction false} SecretStep(w: World, a: Action, given: bool)
    requires SecretInv(w, given)
    ensures SecretInv(Next(w, a), given)
    ensures Migrated(w) ==> Migrated(Next(w, a)) && Next(w, a).migrations == w.migrations
  {
    var w' := Next(w, a);
    forall r | 0 <= r < |w.replicas|
      ensures ReadInv(w'.secret, w'.replicas[r])
      ensures w'.replicas[r].updated <==> w.replicas[r].updated || Migrates(w, a, r)
    {
      StepAt(w, a, r);
    }
    forall q, r | 0 <= q < r < |w.replicas| ensures !(w'.replicas[q].updated && w'.replicas[r].updated) {
      AtMostOne(w, a, given, q, r);
    }
    StepCounts(w, a, given);
  }

  // Before the one migrating update nobody had updated.
  lemma {:induction false} AtMostOne(w: World, a: Action, given: bool, q: nat, r: nat)
    requires SecretInv(w, given) && q < r < |w.replicas|
    ensures !((w.replicas[q].updated || Migrates(w, a, q)) && (w.replicas[r].updated || Migrates(w, a, r)))
  {
    assert ReadInv(w.secret, w.replicas[q]) && ReadInv(w.secret, w.replicas[r]);
  }

  lemma {:induction false} StepCounts(w: World, a: Action, given: bool)
    requires SecretInv(w, given)
    ensures Next(w, a).migrations == (if Migrated(Next(w, a)) && !given then 1 else 0)
    ensures Migrated(w) ==> Migrated(Next(w, a)) && Next(w, a).migrations == w.migrations
    ensures given ==> forall r :: 0 <= r < |w.replicas| ==> !Migrates(w, a, r)
  {
    if a.Update? && a.r < |w.replicas| {
      assert ReadInv(w.secret, w.replicas[a.r]);
    }
  }

  lemma {:induction false} SecretRun(w: World, actions: seq<Action>, i: nat, given: bool)
    requires SecretInv(w, given) && i <= |actions|
    ensures SecretInv(Run(w, actions), given)
    ensures Migrated(Run(w, actions[..i])) ==>
              Migrated(Run(w, actions)) && Run(w, actions).migrations == Run(w, actions[..i]).migrations
    decreases |actions|, i
  {
    if actions == [] {
    } else {
      var before := actions[..|actions| - 1];
      var last := Run(w, before);
      if i == |actions| {
        assert actions[..i] == actions;
        SecretRun(w, before, 0, given);
      } else {
        assert before[..i] == actions[..i];
        SecretRun(w, before, i, given);
      }
      SecretStep(last, actions[|actions| - 1], given);
    }
  }

  /** Across all crashes, restarts and races the migration writes the Secret at most once, and never after the
      annotation is set, be it by itself or from the start; whoever deleted k3s data had its own update succeed, so at
      most one replica did. */
  lemma {:induction false} MigratesSecretOnce(w: World, actions: seq<Action>, i: nat)
    requires Initial(w) && i <= |actions|
    ensures var was, now := Run(w, actions[..i]), Run(w, actions);
            && now.migrations == (if Migrated(now) && !Migrated(w) then 1 else 0)
            && (Migrated(was) ==> Migrated(now) && now.migrations == was.migrations)
            && (forall r :: 0 <= r < |now.replicas| && now.replicas[r].removed ==>
                  now.replicas[r].updated && now.migrations == 1)
            && (forall q, r :: 0 <= q < r < |now.replicas| ==> !(now.replicas[q].removed && now.replicas[r].removed))
  {
    SecretRun(w, actions, i, Migrated(w));
    var now := Run(w, actions);
    forall r | 0 <= r < |now.replicas| && now.replicas[r].removed
        ensures now.replicas[r].updated && now.migrations == 1 {
      assert ReadInv(now.secret, now.replicas[r]);
    }
  }

  /** The update that wins overwrites exactly the k3s entries, each with the replica's own file, and keeps whatever
      the Secret held at that moment for the others. */
  lemma {:induction false} WinningUpdateMerges(w: World, a: Action, e: Entry, given: bool)
    requires SecretInv(w, given) && a.Update? && a.r < |w.replicas| && CanUpdate(w, w.replicas[a.r])
    ensures var now, was, files := Next(w, a).secret.value, w.secret.value, w.replicas[a.r].files;
            if e in Entries() then
              && e in now.data
              && now.data[e] == if e == AdminConf || e == ControllerConf || e == SchedulerConf
                                then Inlined(files[Source(e)]) else files[Source(e)]
            else (e in now.data <==> e in was.data) && (e in now.data ==> now.data[e] == was.data[e])
  {
    UpdateIsFirst(w, w.replicas[a.r]);
  }

  // ---- the database files ----

  function At(files: Files, p: Path): Option<Bytes> {
    if p in files then Some(files[p]) else None
  }

  predicate Moved(rep: Replica, part: Part) {
    match rep.pc
    case Stopped => rep.updated
    case Renaming(next) => rep.updated || (part == State && next != State) || (part == Wal && next == Shm)
    case _ => true
  }

  // The file is at exactly one of its two paths; once its rename is behind, at the new one.
  ghost predicate DbInv(rep: Replica, part: Part, db: Option<Bytes>) {
    && ((At(rep.files, NewDb(part)) == db && OldDb(part) !in rep.files)
        || (At(rep.files, OldDb(part)) == db && NewDb(part) !in rep.files))
    && (Moved(rep, part) ==> OldDb(part) !in rep.files)
  }

  lemma {:induction false} DbRename(rep: Replica, next: Part, part: Part, db: Option<Bytes>)
    requires rep.pc == Renaming(next) && DbInv(rep, part, db)
    ensures DbInv(rep.(files := Renamed(rep.files, next), pc := AfterRename(next)), part, db)
  {
  }

  lemma {:induction false} DbSelf(w: World, rep: Replica, a: Action, part: Part, db: Option<Bytes>)
    requires Embedded(w.store) && DbInv(rep, part, db)
    ensures DbInv(ReplicaAfter(w, rep, a), part, db)
  {
    if a.Rename? && rep.pc.Renaming? {
      DbRename(rep, rep.pc.part, part, db);
    }
  }

  /** With an embedded store, each database file that existed before is, at every moment of every run, at exactly one
      of its old and new paths with its contents unchanged; a file that did not exist never appears. */
  lemma {:induction false} DatabaseIsNeverLost(w: World, actions: seq<Action>, r: nat, part: Part)
    requires Initial(w) && Embedded(w.store) && r < |w.replicas|
    ensures DbInv(Run(w, actions).replicas[r], part, At(w.replicas[r].files, OldDb(part)))
  {
    var db := At(w.replicas[r].files, OldDb(part));
    if actions != [] {
      var before := Run(w, actions[..|actions| - 1]);
      var a := actions[|actions| - 1];
      DatabaseIsNeverLost(w, actions[..|actions| - 1], r, part);
      if !a.OtherCreate? && !a.OtherWrite? && a.r == r {
        DbSelf(before, before.replicas[r], a, part, db);
      }
    }
  }
}
