// pkg/config/validation.go: checks on single sections of the configuration.
module ConfigChecks {
  import opened Common
  import opened Text
  import FlagTokens
  import KubeConfigFlags

  // Leaves of the checks that libraries decide.
  datatype Library = Library(
    isNamespace: string -> bool, isNamespacePrefix: string -> bool, isSubdomain: string -> bool,
    isLabelValue: string -> bool, isUrl: string -> bool, isHostPort: string -> bool,
    isCertPool: seq<int> -> bool, isSelector: int -> bool)

  // ---- tolerations ----

  // ParseToleration in pkg/util/toleration: "*", key, key=value, key:effect or key=value:effect.
  predicate ValidToleration(lib: Library, s: string) {
    s == "*" ||
    var colon := Split(s, ':');
    var equals := if |colon| == 1 then Split(s, '=') else Split(colon[0], '=');
    |colon| <= 2 && |equals| <= 2 && (|equals| == 2 ==> lib.isLabelValue(equals[1]))
  }

  // ---- webhooks ----

  datatype Service = Service(name: string, namespace: string)

  datatype ClientConfig = ClientConfig(caBundle: seq<int>, service: Option<Service>, url: Option<string>)

  predicate ValidClient(lib: Library, c: ClientConfig) {
    && (c.caBundle != [] ==> lib.isCertPool(c.caBundle))
    && (c.service.Some? || c.url.Some?)
    && (c.service.Some? ==> c.service.value.name != "" && c.service.value.namespace != "")
    && (c.url.Some? ==> lib.isUrl(c.url.value))
  }

  // The webhooks of one configuration after the other.
  predicate ValidHooks(lib: Library, hooks: seq<seq<ClientConfig>>) {
    forall i :: 0 <= i < |hooks| ==> forall j :: 0 <= j < |hooks[i]| ==> ValidClient(lib, hooks[i][j])
  }

  method ValidateHooks(lib: Library, hooks: seq<seq<ClientConfig>>) returns (ok: bool)
    ensures ok <==> ValidHooks(lib, hooks)
  {
    for i := 0 to |hooks|
      invariant ValidHooks(lib, hooks[..i])
    {
      for j := 0 to |hooks[i]|
        invariant forall k :: 0 <= k < j ==> ValidClient(lib, hooks[i][k])
      {
        ok := ValidateClient(lib, hooks[i][j]);
        if !ok {
          return;
        }
      }
    }
    assert hooks[..|hooks|] == hooks;
    ok := true;
  }

  method ValidateClient(lib: Library, c: ClientConfig) returns (ok: bool)
    ensures ok <==> ValidClient(lib, c)
  {
    if |c.caBundle| != 0 {
      if !lib.isCertPool(c.caBundle) {
        return false;
      }
    }
    if c.service.None? && c.url.None? {
      return false;
    }
    if c.service.Some? && (c.service.value.name == "" || c.service.value.namespace == "") {
      return false;
    }
    if c.url.Some? {
      return lib.isUrl(c.url.value);
    }
    ok := true;
  }

  // ---- rules that deny proxied requests ----

  datatype Rule = Rule(verbs: seq<string>, apiGroups: seq<string>, apiVersions: seq<string>, scope: Option<string>)

  datatype DenyRule = DenyRule(namespaces: seq<string>, rules: seq<Rule>)

  const VERBS: seq<string> := ["create", "get", "update", "patch", "delete"]

  // The wildcard alone, or only other values, which must be listed if there is a list.
  predicate ValidValues(values: seq<string>, valid: seq<string>) {
    values == ["*"] || forall i :: 0 <= i < |values| ==> values[i] != "*" && (valid == [] || values[i] in valid)
  }

  predicate ValidRule(r: Rule) {
    && ValidValues(r.verbs, VERBS) && ValidValues(r.apiGroups, []) && ValidValues(r.apiVersions, [])
    && (r.scope.Some? ==> r.scope.value == "Cluster" || r.scope.value == "Namespaced" || r.scope.value == "*")
  }

  predicate ValidDenyRule(lib: Library, d: DenyRule) {
    && (forall i :: 0 <= i < |d.namespaces| ==> lib.isNamespace(d.namespaces[i]))
    && (forall i :: 0 <= i < |d.rules| ==> ValidRule(d.rules[i]))
  }

  method ValidateValues(values: seq<string>, valid: seq<string>) returns (ok: bool)
    ensures ok <==> ValidValues(values, valid)
  {
    if |values| == 1 && values[0] == "*" {
      assert values == ["*"];
      return true;
    }
    for i := 0 to |values|
      invariant forall j :: 0 <= j < i ==> values[j] != "*" && (valid == [] || values[j] in valid)
    {
      if values[i] == "*" {
        return false;
      }
      var listed := |valid| == 0;
      for k := 0 to |valid|
        invariant listed <==> valid == [] || values[i] in valid[..k]
      {
        if values[i] == valid[k] {
          listed := true;
          break;
        }
      }
      assert valid[..|valid|] == valid;
      if !listed {
        return false;
      }
    }
    ok := true;
  }

  method ValidateCheck(lib: Library, d: DenyRule) returns (ok: bool)
    ensures ok <==> ValidDenyRule(lib, d)
  {
    for i := 0 to |d.namespaces|
      invariant forall j :: 0 <= j < i ==> lib.isNamespace(d.namespaces[j])
    {
      if !lib.isNamespace(d.namespaces[i]) {
        return false;
      }
    }
    for i := 0 to |d.rules|
      invariant forall j :: 0 <= j < i ==> ValidRule(d.rules[j])
    {
      ok := ValidateRule(d.rules[i]);
      if !ok {
        return;
      }
    }
    ok := true;
  }

  method ValidateRule(r: Rule) returns (ok: bool)
    ensures ok <==> ValidRule(r)
  {
    ok := ValidateValues(r.verbs, VERBS);
    if !ok {
      return;
    }
    ok := ValidateValues(r.apiGroups, []);
    if !ok {
      return;
    }
    ok := ValidateValues(r.apiVersions, []);
    if !ok {
      return;
    }
    ok := r.scope.None? || r.scope.value == "Cluster" || r.scope.value == "Namespaced" || r.scope.value == "*";
  }

  // ---- exported kubeconfigs ----

  predicate ValidServer(lib: Library, server: string) {
    server == "" || (lib.isUrl(server) && ("https://" <= server || "http://" <= server))
  }

  predicate ValidSecrets(e: KubeConfigFlags.Export) {
    && !(e.secret != KubeConfigFlags.NO_SECRET && e.additional != [])
    && forall i :: 0 <= i < |e.additional| ==> e.additional[i].name != "" || e.additional[i].namespace != ""
  }

  predicate ValidExport(lib: Library, e: KubeConfigFlags.Export) {
    ValidSecrets(e) && ValidServer(lib, e.server)
  }

  method ValidateExport(lib: Library, e: KubeConfigFlags.Export) returns (ok: bool)
    ensures ok <==> ValidExport(lib, e)
  {
    if e.secret != KubeConfigFlags.NO_SECRET && |e.additional| > 0 {
      return false;
    }
    for i := 0 to |e.additional|
      invariant forall j :: 0 <= j < i ==> e.additional[j].name != "" || e.additional[j].namespace != ""
    {
      if e.additional[i].name == "" && e.additional[i].namespace == "" {
        return false;
      }
    }
    ok := ValidServer(lib, e.server);
  }

  // Migration keeps valid secrets valid unless it adds one beside the deprecated form.
  lemma {:induction false} MigratedExportIsValidIff(lib: Library, flags: KubeConfigFlags.Flags,
                                                    e: KubeConfigFlags.Export)
    requires KubeConfigFlags.NoneEmpty(flags) && ValidSecrets(e)
    ensures ValidExport(lib, KubeConfigFlags.Migrated(flags, e)) <==>
              && ValidServer(lib, KubeConfigFlags.Get(flags, KubeConfigFlags.SERVER, e.server))
              && (KubeConfigFlags.SetsSecret(flags) ==> e.secret == KubeConfigFlags.NO_SECRET)
  {
  }

  /** From the legacy command line to validation: what converting any well-formed list of flags makes of valid secrets
      is accepted exactly when the last server that is given, or else the one that was set, is acceptable, and no secret
      flag is given beside the deprecated form of the secret. */
  lemma {:induction false} ConvertedExportIsValidIff<C>(
    lib: Library, items: seq<FlagTokens.Item>, e: KubeConfigFlags.Export, c: C,
    migrateFlag: (string, string, C) -> Option<C>)
    requires forall i :: 0 <= i < |items| ==> FlagTokens.WellFormed(items[i])
    requires ValidSecrets(e) && KubeConfigFlags.Convert(FlagTokens.Render(items), e, c, migrateFlag).Some?
    ensures var (converted, _) := KubeConfigFlags.Convert(FlagTokens.Render(items), e, c, migrateFlag).value;
            var server := KubeConfigFlags.LastValue(FlagTokens.Meanings(items), KubeConfigFlags.SERVER);
            ValidExport(lib, converted) <==>
              && ValidServer(lib, if server.Some? then server.value else e.server)
              && (|| KubeConfigFlags.Given(FlagTokens.Meanings(items), KubeConfigFlags.SECRET)
                  || KubeConfigFlags.Given(FlagTokens.Meanings(items), KubeConfigFlags.NAMESPACE) ==>
                    e.secret == KubeConfigFlags.NO_SECRET)
  {
    var tokens := FlagTokens.Meanings(items);
    FlagTokens.TokenizeUndoesRenderIff(items);
    KubeConfigFlags.UsedIsLast(tokens, KubeConfigFlags.SERVER);
    KubeConfigFlags.UsedIsLast(tokens, KubeConfigFlags.SECRET);
    KubeConfigFlags.UsedIsLast(tokens, KubeConfigFlags.NAMESPACE);
    MigratedExportIsValidIff(lib, KubeConfigFlags.Used(tokens), e);
  }

  // ---- integrations ----

  datatype Istio = Istio(enabled: bool, destinationRules: bool, virtualServices: bool, gateways: bool)
  datatype CertManager = CertManager(enabled: bool, certificates: bool, issuers: bool, clusterIssuers: bool)
  datatype ExternalSecrets = ExternalSecrets(enabled: bool, stores: bool, clusterStores: bool)
  datatype KubeVirt = KubeVirt(
    enabled: bool, dataVolumes: bool, migrations: bool, instances: bool, machines: bool, clones: bool, pools: bool)

  datatype Integrations = Integrations(
    metricsServer: bool, istio: Istio, certManager: CertManager, externalSecrets: ExternalSecrets, kubeVirt: KubeVirt)

  // The resources an integration syncs itself.
  predicate IstioOwns(i: Istio, crd: string) {
    i.enabled &&
    (|| (crd == "destinationrules.networking.istio.io" && i.destinationRules)
     || (crd == "virtualservices.networking.istio.io" && i.virtualServices)
     || (crd == "gateways.networking.istio.io" && i.gateways))
  }

  predicate CertManagerOwns(i: CertManager, crd: string) {
    i.enabled &&
    (|| (crd == "certificates.cert-manager.io" && i.certificates)
     || (crd == "issuers.cert-manager.io" && i.issuers))
  }

  predicate CertManagerOwnsFromHost(i: CertManager, crd: string) {
    i.enabled && crd == "clusterissuers.cert-manager.io" && i.clusterIssuers
  }

  predicate ExternalSecretsOwns(i: ExternalSecrets, crd: string) {
    i.enabled &&
    (|| crd == "externalsecrets.external-secrets.io"
     || (crd == "secretstores.external-secrets.io" && i.stores)
     || (crd == "clustersecretstores.external-secrets.io" && i.clusterStores))
  }

  predicate KubeVirtOwns(i: KubeVirt, crd: string) {
    i.enabled &&
    (|| (crd in ["datavolumes.cdi.kubevirt.io", "datavolumes/status.cdi.kubevirt.io"] && i.dataVolumes)
     || (crd in ["virtualmachineinstancemigrations.kubevirt.io", "virtualmachineinstancemigrations/status.kubevirt.io"]
         && i.migrations)
     || (crd in ["virtualmachineinstances.kubevirt.io", "virtualmachineinstances/status.kubevirt.io"] && i.instances)
     || (crd in ["virtualmachines.kubevirt.io", "virtualmachines/status.kubevirt.io"] && i.machines)
     || (crd in ["virtualmachineclones.clone.kubevirt.io", "virtualmachineclones/status.clone.kubevirt.io"] && i.clones)
     || (crd in ["virtualmachinepools.pool.kubevirt.io", "virtualmachinepools/status.pool.kubevirt.io"] && i.pools))
  }

  // No enabled resource is owned.
  predicate Free(owns: string -> bool, enabled: map<string, bool>) {
    forall crd :: crd in enabled && enabled[crd] ==> !owns(crd)
  }

  // One loop over the custom resources, in any order.
  method CheckFree(owns: string -> bool, enabled: map<string, bool>) returns (ok: bool)
    ensures ok <==> Free(owns, enabled)
  {
    var todo := enabled.Keys;
    while todo != {}
      invariant todo <= enabled.Keys
      invariant forall crd :: crd in enabled && crd !in todo && enabled[crd] ==> !owns(crd)
      decreases |todo|
    {
      var crd :| crd in todo;
      if enabled[crd] && owns(crd) {
        return false;
      }
      todo := todo - {crd};
    }
    ok := true;
  }

  predicate Owns(i: Integrations, crd: string) {
    || IstioOwns(i.istio, crd) || CertManagerOwns(i.certManager, crd)
    || ExternalSecretsOwns(i.externalSecrets, crd) || KubeVirtOwns(i.kubeVirt, crd)
  }

  predicate ValidIntegrations(i: Integrations, toHost: map<string, bool>, fromHost: map<string, bool>) {
    Free(crd => Owns(i, crd), toHost) && Free(crd => CertManagerOwnsFromHost(i.certManager, crd), fromHost)
  }

  /** The checks of the four integrations together accept exactly when no enabled custom resource is one that an enabled
      integration syncs. */
  method ValidateEnabledIntegrations(i: Integrations, toHost: map<string, bool>, fromHost: map<string, bool>)
    returns (ok: bool)
    ensures ok <==> ValidIntegrations(i, toHost, fromHost)
  {
    var istio := CheckFree(crd => IstioOwns(i.istio, crd), toHost);
    if !istio {
      return false;
    }
    var certManager := CheckFree(crd => CertManagerOwns(i.certManager, crd), toHost);
    if !certManager {
      return false;
    }
    var fromHostFree := CheckFree(crd => CertManagerOwnsFromHost(i.certManager, crd), fromHost);
    if !fromHostFree {
      return false;
    }
    var externalSecrets := CheckFree(crd => ExternalSecretsOwns(i.externalSecrets, crd), toHost);
    if !externalSecrets {
      return false;
    }
    ok := CheckFree(crd => KubeVirtOwns(i.kubeVirt, crd), toHost);
  }
}
