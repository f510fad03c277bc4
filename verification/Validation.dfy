// pkg/config/validation.go (ValidateConfigAndSetDefaults): checking a configuration while filling in its defaults.
module Validation {
  import opened ConfigChecks
  import opened Patches
  import CustomResources
  import DnsMappings
  import KubeConfigFlags
  import NamespaceSync
  import NodePools
  import SyncMappings
  import Upgrades

  datatype CustomResource = CustomResource(enabled: bool, scope: string, patches: seq<Patch>)

  // The fields that the defaults leave alone.
  datatype Fixed = Fixed(
    name: string, hostNamespace: string, podSecurityStandard: string, tolerations: seq<string>,
    scheduling: bool, selectorLabels: map<string, string>, claims: bool, nodesEnabled: bool,
    upgrade: Upgrades.Config, replicas: int, integrations: Integrations,
    toHost: map<string, CustomResource>, fromHost: map<string, SyncMappings.Resource>, proxy: map<string, bool>,
    syncPatches: seq<seq<Patch>>, toHostStorageClasses: bool,
    fromHostPriorityClasses: bool, toHostPriorityClasses: bool,
    volumeSnapshots: bool, volumeSnapshotContents: bool,
    webhooks: seq<seq<ClientConfig>>, denyRules: seq<DenyRule>, resolveDns: seq<DnsMappings.Mapping>,
    configMaps: SyncMappings.Switch, secrets: SyncMappings.Switch,
    minAndMaxAvailable: bool, exportKubeConfig: KubeConfigFlags.Export,
    privateNodes: bool, endpoint: string, embeddedCoreDns: bool, hostPathMapper: bool,
    autoNodes: seq<NodePools.Provider>, classSelectors: seq<int>, snapshotController: bool)

  // The fields that they may fill in.
  datatype Settings = Settings(
    selectorAll: bool, csiNodes: AutoBool, csiStorageCapacities: AutoBool, csiDrivers: AutoBool,
    storageClasses: AutoBool, secretsAll: bool, configMapsAll: bool, serviceAccount: string, snapshotRules: AutoBool)

  // The texts "auto", "true" and any other.
  datatype AutoBool = Auto | True | Other(text: string)

  datatype Config = Config(fixed: Fixed, settings: Settings)

  // ---- defaults ----

  // "auto" is replaced by "true".
  function Resolve(s: AutoBool): AutoBool {
    if s == Auto then True else s
  }

  function WorkloadAccount(name: string): (account: string)
    ensures account != ""
  {
    "vc-workload-" + name
  }

  function Early(f: Fixed, s: Settings): Settings {
    var selected := s.(selectorAll := s.selectorAll || (f.scheduling && f.selectorLabels == map[]));
    if !f.scheduling || !f.claims then selected
    else selected.(csiNodes := Resolve(s.csiNodes), csiStorageCapacities := Resolve(s.csiStorageCapacities),
                   csiDrivers := Resolve(s.csiDrivers),
                   storageClasses := if f.toHostStorageClasses then s.storageClasses else Resolve(s.storageClasses))
  }

  function Late(f: Fixed, s: Settings): Settings {
    s.(secretsAll := s.secretsAll || f.upgrade.namespacesEnabled,
       configMapsAll := s.configMapsAll || f.upgrade.namespacesEnabled,
       serviceAccount := if s.serviceAccount == "" then WorkloadAccount(f.name) else s.serviceAccount)
  }

  function Last(f: Fixed, s: Settings): Settings {
    if f.privateNodes then s else s.(snapshotRules := Resolve(s.snapshotRules))
  }

  function Defaulted(f: Fixed, s: Settings): Settings {
    Last(f, Late(f, Early(f, s)))
  }

  // The states a run may leave behind.
  predicate Progress(f: Fixed, s: Settings, t: Settings) {
    t == s || t == Early(f, s) || t == Late(f, Early(f, s)) || t == Defaulted(f, s)
  }

  // ---- what is accepted ----

  function SyncNames(lib: Library): SyncMappings.Names {
    SyncMappings.Names(lib.isNamespace, lib.isSubdomain)
  }

  function NamespaceNames(lib: Library): NamespaceSync.Names {
    NamespaceSync.Names(lib.isNamespace, lib.isNamespacePrefix)
  }

  predicate ValidStandard(standard: string) {
    standard == "" || standard == "privileged" || standard == "baseline" || standard == "restricted"
  }

  predicate ValidTolerations(lib: Library, tolerations: seq<string>) {
    forall i :: 0 <= i < |tolerations| ==> ValidToleration(lib, tolerations[i])
  }

  function ToHostEnabled(m: map<string, CustomResource>): map<string, bool> {
    map k | k in m :: m[k].enabled
  }

  function FromHostEnabled(m: map<string, SyncMappings.Resource>): map<string, bool> {
    map k | k in m :: m[k].enabled
  }

  predicate ValidCustomResource(c: CustomResource) {
    (c.scope == "" || c.scope == SyncMappings.NAMESPACED) && ValidPatches(c.patches)
  }

  predicate ValidResources(lib: Library, f: Fixed) {
    && !(Upgrades.StoreOf(f.upgrade) == Upgrades.EmbeddedDatabase && f.replicas > 1)
    && ValidIntegrations(f.integrations, ToHostEnabled(f.toHost), FromHostEnabled(f.fromHost))
    && CustomResources.NoConflicts(ToHostEnabled(f.toHost), FromHostEnabled(f.fromHost), f.proxy)
    && (forall k :: k in f.toHost ==> ValidCustomResource(f.toHost[k]))
    && SyncMappings.ValidResources(SyncNames(lib), f.fromHost) && AllValidPatches(f.syncPatches)
  }

  predicate ValidClasses(c: Config) {
    && (c.fixed.scheduling ==> c.fixed.nodesEnabled)
    && !(c.settings.storageClasses == True && c.fixed.toHostStorageClasses)
    && !(c.fixed.fromHostPriorityClasses && c.fixed.toHostPriorityClasses)
    && c.fixed.volumeSnapshots == c.fixed.volumeSnapshotContents
  }

  predicate ValidNamespaces(lib: Library, f: Fixed) {
    f.upgrade.namespacesEnabled ==>
      NamespaceSync.ValidMappings(NamespaceNames(lib), NamespaceMappings(f), f.name, f.hostNamespace)
  }

  // A missing map has no entries.
  function NamespaceMappings(f: Fixed): NamespaceSync.Mappings {
    if f.upgrade.byName.Some? then f.upgrade.byName.value else map[]
  }

  predicate ValidNetwork(lib: Library, f: Fixed) {
    && ValidHooks(lib, f.webhooks)
    && (forall i :: 0 <= i < |f.denyRules| ==> ValidDenyRule(lib, f.denyRules[i]))
    && DnsMappings.ValidMappings(f.resolveDns)
    && SyncMappings.ValidSwitch(SyncNames(lib), f.configMaps) && SyncMappings.ValidSwitch(SyncNames(lib), f.secrets)
  }

  predicate NoIntegrations(i: Integrations) {
    !i.metricsServer && !i.certManager.enabled && !i.externalSecrets.enabled && !i.istio.enabled && !i.kubeVirt.enabled
  }

  ghost predicate ValidPrivateNodes(lib: Library, f: Fixed) {
    if !f.privateNodes then f.endpoint == ""
    else
      && (f.endpoint != "" ==> lib.isHostPort(f.endpoint))
      && NoIntegrations(f.integrations) && !f.embeddedCoreDns && !f.hostPathMapper && !f.upgrade.namespacesEnabled
      && (forall i :: 0 <= i < |f.autoNodes| ==> NodePools.ValidProvider(f.autoNodes[i]))
      && NodePools.Distinct(NodePools.ProviderNames(f.autoNodes)) && NodePools.Distinct(NodePools.AllNames(f.autoNodes))
  }

  predicate ValidSelectors(lib: Library, selectors: seq<int>) {
    forall i :: 0 <= i < |selectors| ==> lib.isSelector(selectors[i])
  }

  // A configuration as the checks find it once the early defaults are set.
  ghost predicate Passes(lib: Library, c: Config) {
    && ValidStandard(c.fixed.podSecurityStandard) && ValidTolerations(lib, c.fixed.tolerations)
    && ValidResources(lib, c.fixed) && ValidClasses(c) && ValidNetwork(lib, c.fixed) && ValidNamespaces(lib, c.fixed)
    && !c.fixed.minAndMaxAvailable && ValidExport(lib, c.fixed.exportKubeConfig) && ValidPrivateNodes(lib, c.fixed)
    && ValidSelectors(lib, c.fixed.classSelectors) && (c.fixed.snapshotController ==> c.fixed.privateNodes)
  }

  ghost predicate Accepts(lib: Library, c: Config) {
    Passes(lib, c.(settings := Early(c.fixed, c.settings)))
  }

  // ---- the checks ----

  method CheckTolerations(lib: Library, tolerations: seq<string>) returns (ok: bool)
    ensures ok <==> ValidTolerations(lib, tolerations)
  {
    for i := 0 to |tolerations|
      invariant forall j :: 0 <= j < i ==> ValidToleration(lib, tolerations[j])
    {
      if !ValidToleration(lib, tolerations[i]) {
        return false;
      }
    }
    ok := true;
  }

  method CheckCustomResources(resources: map<string, CustomResource>) returns (ok: bool)
    ensures ok <==> forall k :: k in resources ==> ValidCustomResource(resources[k])
  {
    var todo := resources.Keys;
    while todo != {}
      invariant todo <= resources.Keys
      invariant forall k :: k in resources && k !in todo ==> ValidCustomResource(resources[k])
      decreases |todo|
    {
      var k :| k in todo;
      if resources[k].scope != "" && resources[k].scope != SyncMappings.NAMESPACED {
        return false;
      }
      ok := ValidatePatches([resources[k].patches]);
      assert AllValidPatches([resources[k].patches]) <==> ValidPatches([resources[k].patches][0]);
      if !ok {
        return;
      }
      todo := todo - {k};
    }
    ok := true;
  }

  method CheckResources(lib: Library, f: Fixed) returns (ok: bool)
    ensures ok <==> ValidResources(lib, f)
  {
    if Upgrades.StoreOf(f.upgrade) == Upgrades.EmbeddedDatabase && f.replicas > 1 {
      return false;
    }
    ok := ValidateEnabledIntegrations(f.integrations, ToHostEnabled(f.toHost), FromHostEnabled(f.fromHost));
    if !ok {
      return;
    }
    if !CustomResources.NoConflicts(ToHostEnabled(f.toHost), FromHostEnabled(f.fromHost), f.proxy) {
      return false;
    }
    ok := CheckCustomResources(f.toHost);
    if !ok {
      return;
    }
    ok := SyncMappings.ValidateResources(SyncNames(lib), f.fromHost);
    if !ok {
      return;
    }
    ok := ValidatePatches(f.syncPatches);
  }

  method CheckNetwork(lib: Library, f: Fixed) returns (ok: bool)
    ensures ok <==> ValidNetwork(lib, f)
  {
    ok := ValidateHooks(lib, f.webhooks);
    if !ok {
      return;
    }
    for i := 0 to |f.denyRules|
      invariant forall j :: 0 <= j < i ==> ValidDenyRule(lib, f.denyRules[j])
    {
      ok := ValidateCheck(lib, f.denyRules[i]);
      if !ok {
        return;
      }
    }
    ok := DnsMappings.Validate(f.resolveDns);
    if !ok {
      return;
    }
    ok := SyncMappings.ValidateSwitch(SyncNames(lib), f.configMaps);
    if !ok {
      return;
    }
    ok := SyncMappings.ValidateSwitch(SyncNames(lib), f.secrets);
  }

  method CheckNamespaces(lib: Library, f: Fixed) returns (ok: bool)
    ensures ok <==> ValidNamespaces(lib, f)
  {
    if !f.upgrade.namespacesEnabled {
      return true;
    }
    ok := NamespaceSync.ValidateNamespaceSync(NamespaceNames(lib), NamespaceMappings(f), f.name, f.hostNamespace);
  }

  method CheckPrivateNodes(lib: Library, f: Fixed) returns (ok: bool)
    ensures ok <==> ValidPrivateNodes(lib, f)
  {
    if !f.privateNodes {
      return f.endpoint == "";
    }
    if f.endpoint != "" && !lib.isHostPort(f.endpoint) {
      return false;
    }
    if !NoIntegrations(f.integrations) || f.embeddedCoreDns || f.hostPathMapper || f.upgrade.namespacesEnabled {
      return false;
    }
    ok := NodePools.ValidateNodePools(f.autoNodes);
  }

  method CheckSelectors(lib: Library, selectors: seq<int>) returns (ok: bool)
    ensures ok <==> ValidSelectors(lib, selectors)
  {
    for i := 0 to |selectors|
      invariant forall j :: 0 <= j < i ==> lib.isSelector(selectors[j])
    {
      if !lib.isSelector(selectors[i]) {
        return false;
      }
    }
    ok := true;
  }

  class VirtualClusterConfig {
    const fixed: Fixed
    var selectorAll: bool
    var csiNodes: AutoBool
    var csiStorageCapacities: AutoBool
    var csiDrivers: AutoBool
    var storageClasses: AutoBool
    var secretsAll: bool
    var configMapsAll: bool
    var serviceAccount: string
    var snapshotRules: AutoBool

    function Current(): Settings
      reads this
    {
      Settings(selectorAll, csiNodes, csiStorageCapacities, csiDrivers, storageClasses, secretsAll, configMapsAll,
               serviceAccount, snapshotRules)
    }

    function Value(): Config
      reads this
    {
      Config(fixed, Current())
    }

    constructor (c: Config)
      ensures Value() == c
    {
      fixed := c.fixed;
      var s := c.settings;
      selectorAll, csiNodes, csiStorageCapacities := s.selectorAll, s.csiNodes, s.csiStorageCapacities;
      csiDrivers, storageClasses, secretsAll := s.csiDrivers, s.storageClasses, s.secretsAll;
      configMapsAll, serviceAccount, snapshotRules := s.configMapsAll, s.serviceAccount, s.snapshotRules;
    }

    method SetEarlyDefaults()
      modifies this
      ensures Current() == Early(fixed, old(Current()))
    {
      if fixed.scheduling && !selectorAll && |fixed.selectorLabels| == 0 {
        selectorAll := true;
      }
      if fixed.scheduling && fixed.claims {
        csiNodes := Resolve(csiNodes);
        csiStorageCapacities := Resolve(csiStorageCapacities);
        csiDrivers := Resolve(csiDrivers);
        if !fixed.toHostStorageClasses {
          storageClasses := Resolve(storageClasses);
        }
      }
    }

    method SetLateDefaults()
      modifies this
      ensures Current() == Late(fixed, old(Current()))
    {
      if fixed.upgrade.namespacesEnabled {
        secretsAll := true;
        configMapsAll := true;
      }
      if serviceAccount == "" {
        serviceAccount := WorkloadAccount(fixed.name);
      }
    }

    method CheckClasses() returns (ok: bool)
      ensures ok <==> ValidClasses(Value())
    {
      if fixed.scheduling && !fixed.nodesEnabled {
        return false;
      }
      if storageClasses == True && fixed.toHostStorageClasses {
        return false;
      }
      if fixed.fromHostPriorityClasses && fixed.toHostPriorityClasses {
        return false;
      }
      if fixed.volumeSnapshotContents && !fixed.volumeSnapshots {
        return false;
      }
      if fixed.volumeSnapshots && !fixed.volumeSnapshotContents {
        return false;
      }
      ok := true;
    }

    // From the store to the namespace mappings: everything that is checked between the early and the late defaults.
    method CheckMiddle(lib: Library) returns (ok: bool)
      ensures ok <==>
                && ValidResources(lib, fixed) && ValidClasses(Value())
                && ValidNetwork(lib, fixed) && ValidNamespaces(lib, fixed)
    {
      ok := CheckResources(lib, fixed);
      if !ok {
        return;
      }
      ok := CheckClasses();
      if !ok {
        return;
      }
      ok := CheckNetwork(lib, fixed);
      if !ok {
        return;
      }
      ok := CheckNamespaces(lib, fixed);
    }

    // What is checked after the late defaults.
    method CheckEnd(lib: Library) returns (ok: bool)
      ensures ok <==>
                && !fixed.minAndMaxAvailable && ValidExport(lib, fixed.exportKubeConfig)
                && ValidPrivateNodes(lib, fixed)
                && ValidSelectors(lib, fixed.classSelectors) && (fixed.snapshotController ==> fixed.privateNodes)
    {
      if fixed.minAndMaxAvailable {
        return false;
      }
      ok := ValidateExport(lib, fixed.exportKubeConfig);
      if !ok {
        return;
      }
      ok := CheckPrivateNodes(lib, fixed);
      if !ok {
        return;
      }
      ok := CheckSelectors(lib, fixed.classSelectors);
      if !ok {
        return;
      }
      ok := !fixed.snapshotController || fixed.privateNodes;
    }

    method ValidateConfigAndSetDefaults(lib: Library) returns (ok: bool)
      modifies this
      ensures ok <==> Accepts(lib, old(Value()))
      ensures Progress(fixed, old(Current()), Current()) && (ok ==> Current() == Defaulted(fixed, old(Current())))
    {
      if fixed.podSecurityStandard != "" && !ValidStandard(fixed.podSecurityStandard) {
        return false;
      }
      ok := CheckTolerations(lib, fixed.tolerations);
      if !ok {
        return;
      }
      SetEarlyDefaults();
      ok := CheckMiddle(lib);
      if !ok {
        return;
      }
      SetLateDefaults();
      ok := CheckEnd(lib);
      if !ok {
        return;
      }
      if !fixed.privateNodes {
        snapshotRules := Resolve(snapshotRules);
      }
    }
  }

  // ---- validating again ----

  lemma {:induction false} EarlyTwice(f: Fixed, s: Settings)
    ensures Early(f, Early(f, s)) == Early(f, s)
    ensures Early(f, Late(f, Early(f, s))) == Late(f, Early(f, s))
    ensures Early(f, Defaulted(f, s)) == Defaulted(f, s)
  {
  }

  lemma {:induction false} LateTwice(f: Fixed, s: Settings)
    ensures Late(f, Late(f, s)) == Late(f, s) && Last(f, Last(f, s)) == Last(f, s)
    ensures Late(f, Last(f, s)) == Last(f, Late(f, s))
  {
  }

  // The checks look at one setting only, and at that after the early defaults.
  lemma {:induction false} PassesBySetting(lib: Library, c: Config, d: Config)
    requires c.fixed == d.fixed && c.settings.storageClasses == d.settings.storageClasses
    ensures Passes(lib, c) <==> Passes(lib, d)
  {
  }

  /** Wherever a run stopped, another run reaches the same verdict and the same defaults; after an accepted run it
      changes nothing. */
  lemma {:induction false} RunningAgainChangesNothing(lib: Library, f: Fixed, s: Settings, t: Settings)
    requires Progress(f, s, t)
    ensures Accepts(lib, Config(f, t)) <==> Accepts(lib, Config(f, s))
    ensures Defaulted(f, t) == Defaulted(f, s)
  {
    DefaultsAgain(f, s, t);
    PassesBySetting(lib, Config(f, Early(f, t)), Config(f, Early(f, s)));
  }

  lemma {:induction false} DefaultsAgain(f: Fixed, s: Settings, t: Settings)
    requires Progress(f, s, t)
    ensures Early(f, t).storageClasses == Early(f, s).storageClasses && Defaulted(f, t) == Defaulted(f, s)
  {
    EarlyTwice(f, s);
    LateTwice(f, Early(f, s));
    LateTwice(f, Late(f, Early(f, s)));
  }

  // Whatever s sets is set the same in t.
  predicate KeepsFlags(s: Settings, t: Settings) {
    (s.selectorAll ==> t.selectorAll) && (s.secretsAll ==> t.secretsAll) && (s.configMapsAll ==> t.configMapsAll)
  }

  predicate KeepsTexts(s: Settings, t: Settings) {
    && (s.csiNodes != Auto ==> t.csiNodes == s.csiNodes) && (s.csiDrivers != Auto ==> t.csiDrivers == s.csiDrivers)
    && (s.csiStorageCapacities != Auto ==> t.csiStorageCapacities == s.csiStorageCapacities)
    && (s.storageClasses != Auto ==> t.storageClasses == s.storageClasses)
    && (s.serviceAccount != "" ==> t.serviceAccount == s.serviceAccount)
    && (s.snapshotRules != Auto ==> t.snapshotRules == s.snapshotRules)
  }

  lemma {:induction false} EarlyKeeps(f: Fixed, s: Settings)
    ensures KeepsFlags(s, Early(f, s)) && KeepsTexts(s, Early(f, s))
  {
  }

  lemma {:induction false} LateKeeps(f: Fixed, s: Settings)
    ensures KeepsFlags(s, Last(f, Late(f, s))) && KeepsTexts(s, Last(f, Late(f, s)))
  {
  }

  lemma {:induction false} KeepsChain(s: Settings, t: Settings, u: Settings)
    requires KeepsFlags(s, t) && KeepsTexts(s, t) && KeepsFlags(t, u) && KeepsTexts(t, u)
    ensures KeepsFlags(s, u) && KeepsTexts(s, u)
  {
  }

  /** Defaulting fills in only what is unset. */
  lemma {:induction false} DefaultsFillOnlyUnset(f: Fixed, s: Settings)
    ensures KeepsFlags(s, Defaulted(f, s)) && KeepsTexts(s, Defaulted(f, s))
  {
    EarlyKeeps(f, s);
    LateKeeps(f, Early(f, s));
    KeepsChain(s, Early(f, s), Defaulted(f, s));
  }

  // "auto" becomes "true" under this condition, and every other text stays.
  predicate DecidedIf(before: AutoBool, after: AutoBool, condition: bool) {
    after == if before.Auto? && condition then True else before
  }

  /** It decides what scheduling, namespace sync and shared nodes need, and nothing else: a switch on "auto" becomes
      "true" exactly then, a flag is raised exactly then, and the service account gets its name exactly if it has
      none. */
  lemma {:induction false} DefaultsDecide(f: Fixed, s: Settings)
    ensures var t, storage := Defaulted(f, s), f.scheduling && f.claims;
            && DecidedIf(s.csiNodes, t.csiNodes, storage) && DecidedIf(s.csiDrivers, t.csiDrivers, storage)
            && DecidedIf(s.csiStorageCapacities, t.csiStorageCapacities, storage)
            && DecidedIf(s.storageClasses, t.storageClasses, storage && !f.toHostStorageClasses)
            && DecidedIf(s.snapshotRules, t.snapshotRules, !f.privateNodes)
            && (t.selectorAll <==> s.selectorAll || (f.scheduling && f.selectorLabels == map[]))
            && (t.secretsAll <==> s.secretsAll || f.upgrade.namespacesEnabled)
            && (t.configMapsAll <==> s.configMapsAll || f.upgrade.namespacesEnabled)
            && t.serviceAccount == if s.serviceAccount == "" then "vc-workload-" + f.name else s.serviceAccount
  {
  }

  // ---- what accepted configurations guarantee ----

  /** Nothing is synced two ways: neither storage classes, with the defaults in, nor a custom resource, nor one that an
      integration syncs; and none shares its group with a proxied one. */
  lemma {:induction false} AcceptedIsConsistent(lib: Library, f: Fixed, s: Settings, k: string, q: string)
    requires Accepts(lib, Config(f, s))
    ensures !(Defaulted(f, s).storageClasses == True && f.toHostStorageClasses)
    ensures var to := CustomResources.Live(ToHostEnabled(f.toHost), k);
            var from := CustomResources.Live(FromHostEnabled(f.fromHost), k);
            && !(to && from)
            && !(to && Owns(f.integrations, k)) && !(from && CertManagerOwnsFromHost(f.integrations.certManager, k))
            && ((to || from) && CustomResources.Live(f.proxy, q) ==>
                  CustomResources.ExtractGroup(k) != CustomResources.ExtractGroup(q))
  {
    CustomResources.NoConflictsIff(ToHostEnabled(f.toHost), FromHostEnabled(f.fromHost), f.proxy);
  }

  /** With private nodes nothing is synced by namespace and no integration is on; pool names are distinct everywhere; an
      endpoint is set only with them. */
  lemma {:induction false} AcceptedPrivateNodes(lib: Library, f: Fixed, s: Settings)
    requires Accepts(lib, Config(f, s))
    ensures f.privateNodes ==> !f.upgrade.namespacesEnabled && NoIntegrations(f.integrations)
    ensures f.privateNodes ==>
        Defaulted(f, s).secretsAll == s.secretsAll && Defaulted(f, s).configMapsAll == s.configMapsAll
    ensures f.privateNodes ==> NodePools.Distinct(NodePools.AllNames(f.autoNodes))
    ensures f.endpoint != "" || f.snapshotController ==> f.privateNodes
  {
  }

  /** With namespace sync, no host namespace that is translated is the one the control plane runs in. */
  lemma {:induction false} AcceptedSparesControlPlane(lib: Library, f: Fixed, s: Settings, r: string)
    requires Accepts(lib, Config(f, s)) && f.upgrade.namespacesEnabled
    ensures !NamespaceSync.Exactly(NamespaceMappings(f), f.name, f.hostNamespace, r)
    ensures !NamespaceSync.ByWildcard(NamespaceMappings(f), f.name, f.hostNamespace, r)
  {
    NamespaceSync.ControlPlaneIsNeverSynced(NamespaceNames(lib), NamespaceMappings(f), f.name, f.hostNamespace, r);
  }

  /** A namespaced custom resource from the host has mappings, and only such a one has; one synced to the host is never
      cluster-scoped. */
  lemma {:induction false} AcceptedFromHostResources(lib: Library, f: Fixed, s: Settings, k: string)
    requires Accepts(lib, Config(f, s))
    ensures k in f.fromHost ==> (f.fromHost[k].scope == SyncMappings.NAMESPACED <==> f.fromHost[k].byName != map[])
    ensures k in f.toHost ==> f.toHost[k].scope != SyncMappings.CLUSTER
  {
    if k in f.fromHost {
      assert SyncMappings.ValidResource(SyncNames(lib), f.fromHost[k]);
    }
    if k in f.toHost {
      assert ValidCustomResource(f.toHost[k]);
      assert SyncMappings.CLUSTER[0] != SyncMappings.NAMESPACED[0];
    }
  }

  // ---- over upgrades ----

  function UpgradeFields(history: seq<Config>): seq<Upgrades.Config> {
    seq(|history|, i requires 0 <= i < |history| => history[i].fixed.upgrade)
  }

  /** A vCluster whose upgrades were accepted and that was ever valid with namespace sync is never valid with private
      nodes, earlier or later, and with nothing that needs them; its mappings are always the same, and they never
      translate the namespace of the control plane. */
  lemma {:induction false} ModesStayApart(lib: Library, history: seq<Config>, i: nat, j: nat, r: string)
    requires i < |history| && j < |history| && Upgrades.Accepted(UpgradeFields(history))
    requires Accepts(lib, history[i]) && Accepts(lib, history[j]) && history[i].fixed.upgrade.namespacesEnabled
    ensures var f := history[j].fixed;
            && !f.privateNodes && f.endpoint == "" && !f.snapshotController
            && NamespaceMappings(f) == NamespaceMappings(history[i].fixed)
            && !NamespaceSync.Exactly(NamespaceMappings(history[i].fixed), f.name, f.hostNamespace, r)
            && !NamespaceSync.ByWildcard(NamespaceMappings(history[i].fixed), f.name, f.hostNamespace, r)
  {
    var upgrades := UpgradeFields(history);
    if i <= j {
      Upgrades.HistoryIsOneChange(upgrades, i, j);
    } else {
      Upgrades.HistoryIsOneChange(upgrades, j, i);
    }
    assert upgrades[i] == history[i].fixed.upgrade && upgrades[j] == history[j].fixed.upgrade;
    var f, s := history[j].fixed, history[j].settings;
    assert history[j] == Config(f, s);
    AcceptedPrivateNodes(lib, f, s);
    AcceptedSparesControlPlane(lib, f, s, r);
  }
}
