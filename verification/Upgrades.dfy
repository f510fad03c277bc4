// config/config.go (BackingStoreType, ValidateChanges): which configuration changes an upgrade may make, over any
// number of upgrades.
module Upgrades {
  import opened Common

  datatype StoreType = EmbeddedEtcd | ExternalEtcd | DeployedEtcd | EmbeddedDatabase | ExternalDatabase

  datatype BackingStore = BackingStore(
    etcdEmbedded: bool, etcdExternal: bool, etcdDeploy: bool, databaseEmbedded: bool, databaseExternal: bool)

  // The fields that upgrades are checked on; a nil map or list differs from an empty one.
  datatype Config = Config(
    store: BackingStore,
    namespacesEnabled: bool, mappingsOnly: bool, byName: Option<map<string, string>>, patches: Option<seq<int>>,
    vpn: bool, nodeToNode: bool)

  function StoreOf(c: Config): StoreType {
    if c.store.etcdEmbedded then EmbeddedEtcd
    else if c.store.etcdExternal then ExternalEtcd
    else if c.store.etcdDeploy then DeployedEtcd
    else if c.store.databaseEmbedded then EmbeddedDatabase
    else if c.store.databaseExternal then ExternalDatabase
    else EmbeddedDatabase
  }

  /** Which store is used, by the switches: the first that is on, etcd before databases and embedded etcd first, but an
      embedded database before an external one, and an embedded database if none is on. */
  lemma {:induction false} StoreBySwitches(c: Config)
    ensures StoreOf(c) == EmbeddedEtcd <==> c.store.etcdEmbedded
    ensures StoreOf(c) == ExternalEtcd <==> c.store.etcdExternal && !c.store.etcdEmbedded
    ensures StoreOf(c) == DeployedEtcd <==> c.store.etcdDeploy && !c.store.etcdEmbedded && !c.store.etcdExternal
    ensures StoreOf(c) == ExternalDatabase <==> OnlyExternalDatabase(c.store)
  {
  }

  predicate OnlyExternalDatabase(s: BackingStore) {
    s.databaseExternal && !s.databaseEmbedded && !s.etcdEmbedded && !s.etcdExternal && !s.etcdDeploy
  }

  predicate ValidStoreChange(current: StoreType, previous: StoreType) {
    current == previous ||
    match current
    case DeployedEtcd | EmbeddedEtcd =>
      previous == ExternalEtcd || previous == DeployedEtcd || previous == EmbeddedDatabase
    case ExternalDatabase => previous == EmbeddedDatabase
    case _ => false
  }

  predicate ValidNamespaceSyncChange(before: Config, after: Config) {
    && before.namespacesEnabled == after.namespacesEnabled && before.mappingsOnly == after.mappingsOnly
    && before.byName == after.byName && before.patches == after.patches
  }

  predicate ValidVpnChange(before: Config, after: Config) {
    before.vpn == after.vpn && before.nodeToNode == after.nodeToNode
  }

  predicate ValidChange(before: Config, after: Config) {
    && ValidStoreChange(StoreOf(after), StoreOf(before))
    && ValidNamespaceSyncChange(before, after) && ValidVpnChange(before, after)
  }

  // Every upgrade of the history was accepted.
  ghost predicate Accepted(history: seq<Config>) {
    forall i :: 0 <= i < |history| - 1 ==> ValidChange(history[i], history[i + 1])
  }

  function Changes(history: seq<Config>): nat {
    if |history| <= 1 then 0
    else
      var n := |history| - 1;
      Changes(history[..n]) + if StoreOf(history[n]) != StoreOf(history[n - 1]) then 1 else 0
  }

  // How far a store is along the changes that are allowed.
  function Rank(s: StoreType): nat {
    match s
    case ExternalEtcd | EmbeddedDatabase => 0
    case DeployedEtcd => 1
    case EmbeddedEtcd | ExternalDatabase => 2
  }

  lemma {:induction false} ChangeIsTransitive(a: Config, b: Config, c: Config)
    requires ValidChange(a, b) && ValidChange(b, c)
    ensures ValidChange(a, c)
  {
  }

  /** Any run of accepted upgrades amounts to one acceptable upgrade: nothing is reachable in steps that is refused at
      once. Namespace sync and VPN settings therefore never change. */
  lemma {:induction false} HistoryIsOneChange(history: seq<Config>, i: nat, j: nat)
    requires Accepted(history) && i <= j < |history|
    ensures ValidChange(history[i], history[j])
    decreases j - i
  {
    if i < j {
      HistoryIsOneChange(history, i, j - 1);
      ChangeIsTransitive(history[i], history[j - 1], history[j]);
    }
  }

  /** Over any accepted history the settings of namespace sync and of the VPN are what they were. */
  lemma {:induction false} SettingsNeverChange(history: seq<Config>, i: nat, j: nat)
    requires Accepted(history) && i <= j < |history|
    ensures history[i].namespacesEnabled == history[j].namespacesEnabled
    ensures history[i].mappingsOnly == history[j].mappingsOnly && history[i].byName == history[j].byName
    ensures history[i].patches == history[j].patches
    ensures history[i].vpn == history[j].vpn && history[i].nodeToNode == history[j].nodeToNode
  {
    HistoryIsOneChange(history, i, j);
  }

  lemma {:induction false} ChangesRaiseRank(history: seq<Config>)
    requires Accepted(history) && history != []
    ensures Changes(history) + Rank(StoreOf(history[0])) <= Rank(StoreOf(history[|history| - 1]))
  {
    if |history| > 1 {
      var n := |history| - 1;
      ChangesRaiseRank(history[..n]);
      assert ValidChange(history[n - 1], history[n]);
    }
  }

  /** The backing store changes at most twice, and a store once left is never used again. */
  lemma {:induction false} StoreChangesAtMostTwice(history: seq<Config>, i: nat, j: nat, k: nat)
    requires Accepted(history) && i <= j <= k < |history|
    ensures Changes(history) <= 2
    ensures StoreOf(history[i]) == StoreOf(history[k]) ==> StoreOf(history[j]) == StoreOf(history[i])
  {
    ChangesRaiseRank(history);
    HistoryIsOneChange(history, i, j);
    HistoryIsOneChange(history, j, k);
  }

  /** A store is never left, in any accepted history, exactly when it is embedded etcd or an external database. */
  lemma {:induction false} AbsorbingIff(s: StoreType)
    ensures (forall before, after :: ValidChange(before, after) && StoreOf(before) == s ==> StoreOf(after) == s) <==>
              s == EmbeddedEtcd || s == ExternalDatabase
  {
    var stores := map[ExternalEtcd := BackingStore(false, true, false, false, false),
                      DeployedEtcd := BackingStore(false, false, true, false, false),
                      EmbeddedDatabase := BackingStore(false, false, false, true, false)];
    if s in stores {
      var before := Config(stores[s], false, false, None, None, false, false);
      var after := before.(store := BackingStore(true, false, false, false, false));
      assert ValidChange(before, after) && StoreOf(before) == s && StoreOf(after) != s;
    }
  }

  /** By the switches, over any accepted history: embedded etcd once on stays on, and an external database alone stays
      alone; nothing ever moves to external etcd; and only an embedded database is left for an external one. */
  lemma {:induction false} SwitchesOverHistory(history: seq<Config>, i: nat, j: nat)
    requires Accepted(history) && i <= j < |history|
    ensures history[i].store.etcdEmbedded ==> history[j].store.etcdEmbedded
    ensures OnlyExternalDatabase(history[i].store) ==> OnlyExternalDatabase(history[j].store)
    ensures StoreOf(history[j]) == ExternalEtcd ==> StoreOf(history[i]) == ExternalEtcd
    ensures OnlyExternalDatabase(history[j].store) && !OnlyExternalDatabase(history[i].store) ==>
              !history[i].store.etcdEmbedded && !history[i].store.etcdExternal && !history[i].store.etcdDeploy
  {
    HistoryIsOneChange(history, i, j);
    StoreBySwitches(history[i]);
    StoreBySwitches(history[j]);
  }

  // The changes that are allowed, by rank.
  predicate Reachable(from: StoreType, to: StoreType) {
    from == to || (Rank(from) < Rank(to) && (to == ExternalDatabase ==> from == EmbeddedDatabase))
  }

  function StoreFor(s: StoreType): BackingStore {
    BackingStore(s == EmbeddedEtcd, s == ExternalEtcd, s == DeployedEtcd, s == EmbeddedDatabase, s == ExternalDatabase)
  }

  /** By any number of accepted upgrades, exactly these stores can be reached from each other. */
  lemma {:induction false} ReachableIff(from: StoreType, to: StoreType)
    ensures (exists history ::
               && history != [] && Accepted(history)
               && StoreOf(history[0]) == from && StoreOf(history[|history| - 1]) == to)
            <==> Reachable(from, to)
  {
    if history :| (&& history != [] && Accepted(history)
                   && StoreOf(history[0]) == from && StoreOf(history[|history| - 1]) == to) {
      HistoryIsOneChange(history, 0, |history| - 1);
    }
    if Reachable(from, to) {
      var before := Config(StoreFor(from), false, false, None, None, false, false);
      var history := [before, before.(store := StoreFor(to))];
      assert ValidChange(history[0], history[1]);
      assert Accepted(history) && StoreOf(history[0]) == from && StoreOf(history[|history| - 1]) == to;
    }
  }

  // Config.EmbeddedDatabase, the other test for an embedded database.
  predicate IsEmbeddedDatabase(c: Config) {
    !c.store.databaseExternal && !c.store.etcdEmbedded && !c.store.etcdDeploy && !c.store.etcdExternal
  }

  /** The two tests agree except exactly when both databases, and no etcd, are enabled. */
  lemma {:induction false} EmbeddedDatabaseTestsAgreeIff(c: Config)
    ensures (StoreOf(c) == EmbeddedDatabase <==> IsEmbeddedDatabase(c)) <==>
              !(c.store.databaseEmbedded && c.store.databaseExternal
                && !c.store.etcdEmbedded && !c.store.etcdExternal && !c.store.etcdDeploy)
  {
  }

  /** Two changes do happen: SQLite to deployed etcd to embedded etcd. */
  lemma {:induction false} TwoChangesHappen(history: seq<Config>, sqlite: Config)
    requires sqlite.store == BackingStore(false, false, false, true, false)
    requires history == [sqlite, sqlite.(store := BackingStore(false, false, true, false, false)),
                         sqlite.(store := BackingStore(true, false, false, false, false))]
    ensures Accepted(history) && Changes(history) == 2
  {
    assert history[..2][..1] == [sqlite];
    assert history[..2][1] == history[1] && history[..2][0] == history[0];
    assert Changes(history[..2]) == 1;
  }
}
