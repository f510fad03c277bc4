// The concrete table of pkg/certs/constants.go, and that the replica protocol applies to it.
module CertTable {
  import opened CertFiles
  import opened Text

  // A path below the PKI directory; only etcd's files sit in a sub-directory.
  datatype Name = Name(dir: string, base: string)

  datatype Entry =
    | AdminConf | ControllerConf | SchedulerConf
    | ApiServerCrt | ApiServerKey
    | EtcdClientCrt | EtcdClientKey
    | KubeletClientCrt | KubeletClientKey
    | CaCrt | CaKey
    | ServerCaCrt | ServerCaKey
    | ClientCaCrt | ClientCaKey
    | FrontProxyCaCrt | FrontProxyCaKey
    | FrontProxyClientCrt | FrontProxyClientKey
    | SaKey | SaPub
    | EtcdCaCrt | EtcdCaKey
    | EtcdHealthCrt | EtcdHealthKey
    | EtcdPeerCrt | EtcdPeerKey
    | EtcdServerCrt | EtcdServerKey

  function Path(e: Entry): Name {
    match e
    case AdminConf => Name("", "admin.conf")
    case ControllerConf => Name("", "controller-manager.conf")
    case SchedulerConf => Name("", "scheduler.conf")
    case ApiServerCrt => Name("", "apiserver.crt")
    case ApiServerKey => Name("", "apiserver.key")
    case EtcdClientCrt => Name("", "apiserver-etcd-client.crt")
    case EtcdClientKey => Name("", "apiserver-etcd-client.key")
    case KubeletClientCrt => Name("", "apiserver-kubelet-client.crt")
    case KubeletClientKey => Name("", "apiserver-kubelet-client.key")
    case CaCrt => Name("", "ca.crt")
    case CaKey => Name("", "ca.key")
    case ServerCaCrt => Name("", "server-ca.crt")
    case ServerCaKey => Name("", "server-ca.key")
    case ClientCaCrt => Name("", "client-ca.crt")
    case ClientCaKey => Name("", "client-ca.key")
    case FrontProxyCaCrt => Name("", "front-proxy-ca.crt")
    case FrontProxyCaKey => Name("", "front-proxy-ca.key")
    case FrontProxyClientCrt => Name("", "front-proxy-client.crt")
    case FrontProxyClientKey => Name("", "front-proxy-client.key")
    case SaKey => Name("", "sa.key")
    case SaPub => Name("", "sa.pub")
    case EtcdCaCrt => Name("etcd", "ca.crt")
    case EtcdCaKey => Name("etcd", "ca.key")
    case EtcdHealthCrt => Name("etcd", "healthcheck-client.crt")
    case EtcdHealthKey => Name("etcd", "healthcheck-client.key")
    case EtcdPeerCrt => Name("etcd", "peer.crt")
    case EtcdPeerKey => Name("etcd", "peer.key")
    case EtcdServerCrt => Name("etcd", "server.crt")
    case EtcdServerKey => Name("etcd", "server.key")
  }

  // strings.ReplaceAll(path, "/", "-")
  function Dashed(n: Name): Name {
    if n.dir == "" then n else Name("", n.dir + "-" + n.base)
  }

  function SecretEntry(e: Entry): Name {
    Dashed(Path(e))
  }

  // ---- removeFiles' exclusions look at the base name only ----

  predicate ExcludeCaFiles(base: string) {
    base == "ca.crt" || base == "ca.key" || HasSuffix(base, "-ca.crt") || HasSuffix(base, "-ca.key")
  }

  predicate ExcludeSaFiles(base: string) {
    base == "sa.pub" || base == "sa.key"
  }

  // ---- roles ----

  predicate IsCa(e: Entry) {
    match e
    case CaCrt | CaKey | ServerCaCrt | ServerCaKey | ClientCaCrt | ClientCaKey => true
    case FrontProxyCaCrt | FrontProxyCaKey | EtcdCaCrt | EtcdCaKey => true
    case _ => false
  }

  predicate IsSa(e: Entry) {
    e == SaKey || e == SaPub
  }

  predicate IsCertificate(e: Entry) {
    match e
    case ApiServerCrt | EtcdClientCrt | KubeletClientCrt | FrontProxyClientCrt => true
    case EtcdHealthCrt | EtcdPeerCrt | EtcdServerCrt => true
    case CaCrt | ServerCaCrt | ClientCaCrt | FrontProxyCaCrt | EtcdCaCrt => true
    case _ => false
  }

  // The CA certificate that signs a leaf.
  function Issuer(e: Entry): Entry {
    match e
    case FrontProxyClientCrt => FrontProxyCaCrt
    case FrontProxyClientKey => FrontProxyCaCrt
    case EtcdClientCrt => EtcdCaCrt
    case EtcdClientKey => EtcdCaCrt
    case EtcdHealthCrt => EtcdCaCrt
    case EtcdHealthKey => EtcdCaCrt
    case EtcdPeerCrt => EtcdCaCrt
    case EtcdPeerKey => EtcdCaCrt
    case EtcdServerCrt => EtcdCaCrt
    case EtcdServerKey => EtcdCaCrt
    case _ => CaCrt
  }

  // ---- the names tell the entries apart ----

  // Length, first character and third character from the end.
  function Mark(s: string): (int, char, char)
    requires |s| >= 3
  {
    (|s|, s[0], s[|s| - 3])
  }

  function Decode(m: (int, char, char)): Entry {
    match m
    case (10, _, _) => AdminConf
    case (23, _, _) => ControllerConf
    case (14, _, _) => SchedulerConf
    case (25, _, k) => if k == 'c' then EtcdClientCrt else EtcdClientKey
    case (28, _, k) => if k == 'c' then KubeletClientCrt else KubeletClientKey
    case (18, _, k) => if k == 'c' then FrontProxyCaCrt else FrontProxyCaKey
    case (22, _, k) => if k == 'c' then FrontProxyClientCrt else FrontProxyClientKey
    case (11, _, k) => if k == 'c' then EtcdCaCrt else EtcdCaKey
    case (27, _, k) => if k == 'c' then EtcdHealthCrt else EtcdHealthKey
    case (15, _, k) => if k == 'c' then EtcdServerCrt else EtcdServerKey
    case (6, c, k) => if k == 'c' then CaCrt else if k == 'p' then SaPub else if c == 'c' then CaKey else SaKey
    case (_, c, k) =>
      if c == 'a' then (if k == 'c' then ApiServerCrt else ApiServerKey)
      else if c == 's' then (if k == 'c' then ServerCaCrt else ServerCaKey)
      else if c == 'c' then (if k == 'c' then ClientCaCrt else ClientCaKey)
      else (if k == 'c' then EtcdPeerCrt else EtcdPeerKey)
  }

  // The exclusions, character by character.
  predicate CaName(b: string) {
    var n := |b|;
    && n >= 6 && b[n - 6] == 'c' && b[n - 5] == 'a' && b[n - 4] == '.'
    && (|| (b[n - 3] == 'c' && b[n - 2] == 'r' && b[n - 1] == 't')
        || (b[n - 3] == 'k' && b[n - 2] == 'e' && b[n - 1] == 'y'))
    && (n == 6 || b[n - 7] == '-')
  }

  predicate SaName(b: string) {
    && |b| == 6 && b[0] == 's' && b[1] == 'a' && b[2] == '.'
    && ((b[3] == 'p' && b[4] == 'u' && b[5] == 'b') || (b[3] == 'k' && b[4] == 'e' && b[5] == 'y'))
  }

  // The suffix ".crt", character by character.
  predicate EndsInCrt(b: string) {
    var n := |b|;
    n >= 4 && b[n - 4] == '.' && b[n - 3] == 'c' && b[n - 2] == 'r' && b[n - 1] == 't'
  }

  lemma {:induction false} ExclusionsByCharacter(b: string)
    ensures ExcludeCaFiles(b) <==> CaName(b)
    ensures ExcludeSaFiles(b) <==> SaName(b)
  {
    if CaName(b) {
      var n := |b|;
      assert n == 6 ==> b == "ca.crt" || b == "ca.key";
      assert n > 6 ==> b[n - 7..] == "-ca.crt" || b[n - 7..] == "-ca.key";
    }
    if HasSuffix(b, "-ca.crt") || HasSuffix(b, "-ca.key") {
      var tail := b[|b| - 7..];
      assert forall i :: 0 <= i < 7 ==> tail[i] == b[|b| - 7 + i];
      assert tail[1] == 'c' && tail[2] == 'a' && tail[3] == '.';
    }
    assert SaName(b) ==> b == "sa.pub" || b == "sa.key";
  }

  // The name of an entry gives it away, and the exclusions and the suffix give away its role.
  predicate NameTells(e: Entry) {
    var key, base := SecretEntry(e).base, Path(e).base;
    && |key| >= 3 && |base| >= 4 && Decode(Mark(key)) == e
    && (CaName(base) <==> IsCa(e)) && (SaName(base) <==> IsSa(e)) && (EndsInCrt(base) <==> IsCertificate(e))
  }

  lemma {:induction false} AdminConfName()
    ensures NameTells(AdminConf)
  {
  }

  lemma {:induction false} ControllerConfName()
    ensures NameTells(ControllerConf)
  {
  }

  lemma {:induction false} SchedulerConfName()
    ensures NameTells(SchedulerConf)
  {
  }

  lemma {:induction false} ApiServerCrtName()
    ensures NameTells(ApiServerCrt)
  {
  }

  lemma {:induction false} ApiServerKeyName()
    ensures NameTells(ApiServerKey)
  {
  }

  lemma {:induction false} EtcdClientCrtName()
    ensures NameTells(EtcdClientCrt)
  {
  }

  lemma {:induction false} EtcdClientKeyName()
    ensures NameTells(EtcdClientKey)
  {
  }

  lemma {:induction false} KubeletClientCrtName()
    ensures NameTells(KubeletClientCrt)
  {
  }

  lemma {:induction false} KubeletClientKeyName()
    ensures NameTells(KubeletClientKey)
  {
  }

  lemma {:induction false} CaCrtName()
    ensures NameTells(CaCrt)
  {
  }

  lemma {:induction false} CaKeyName()
    ensures NameTells(CaKey)
  {
  }

  lemma {:induction false} ServerCaCrtName()
    ensures NameTells(ServerCaCrt)
  {
  }

  lemma {:induction false} ServerCaKeyName()
    ensures NameTells(ServerCaKey)
  {
  }

  lemma {:induction false} ClientCaCrtName()
    ensures NameTells(ClientCaCrt)
  {
  }

  lemma {:induction false} ClientCaKeyName()
    ensures NameTells(ClientCaKey)
  {
  }

  lemma {:induction false} FrontProxyCaCrtName()
    ensures NameTells(FrontProxyCaCrt)
  {
  }

  lemma {:induction false} FrontProxyCaKeyName()
    ensures NameTells(FrontProxyCaKey)
  {
  }

  lemma {:induction false} FrontProxyClientCrtName()
    ensures NameTells(FrontProxyClientCrt)
  {
  }

  lemma {:induction false} FrontProxyClientKeyName()
    ensures NameTells(FrontProxyClientKey)
  {
  }

  lemma {:induction false} SaKeyName()
    ensures NameTells(SaKey)
  {
  }

  lemma {:induction false} SaPubName()
    ensures NameTells(SaPub)
  {
  }

  lemma {:induction false} EtcdCaCrtName()
    ensures NameTells(EtcdCaCrt)
  {
  }

  lemma {:induction false} EtcdCaKeyName()
    ensures NameTells(EtcdCaKey)
  {
  }

  lemma {:induction false} EtcdHealthCrtName()
    ensures NameTells(EtcdHealthCrt)
  {
  }

  lemma {:induction false} EtcdHealthKeyName()
    ensures NameTells(EtcdHealthKey)
  {
  }

  lemma {:induction false} EtcdPeerCrtName()
    ensures NameTells(EtcdPeerCrt)
  {
  }

  lemma {:induction false} EtcdPeerKeyName()
    ensures NameTells(EtcdPeerKey)
  {
  }

  lemma {:induction false} EtcdServerCrtName()
    ensures NameTells(EtcdServerCrt)
  {
  }

  lemma {:induction false} EtcdServerKeyName()
    ensures NameTells(EtcdServerKey)
  {
  }

  lemma {:induction false} NamesTell(e: Entry)
    ensures NameTells(e)
  {
    match e
    case AdminConf => AdminConfName();
    case ControllerConf => ControllerConfName();
    case SchedulerConf => SchedulerConfName();
    case ApiServerCrt => ApiServerCrtName();
    case ApiServerKey => ApiServerKeyName();
    case EtcdClientCrt => EtcdClientCrtName();
    case EtcdClientKey => EtcdClientKeyName();
    case KubeletClientCrt => KubeletClientCrtName();
    case KubeletClientKey => KubeletClientKeyName();
    case CaCrt => CaCrtName();
    case CaKey => CaKeyName();
    case ServerCaCrt => ServerCaCrtName();
    case ServerCaKey => ServerCaKeyName();
    case ClientCaCrt => ClientCaCrtName();
    case ClientCaKey => ClientCaKeyName();
    case FrontProxyCaCrt => FrontProxyCaCrtName();
    case FrontProxyCaKey => FrontProxyCaKeyName();
    case FrontProxyClientCrt => FrontProxyClientCrtName();
    case FrontProxyClientKey => FrontProxyClientKeyName();
    case SaKey => SaKeyName();
    case SaPub => SaPubName();
    case EtcdCaCrt => EtcdCaCrtName();
    case EtcdCaKey => EtcdCaKeyName();
    case EtcdHealthCrt => EtcdHealthCrtName();
    case EtcdHealthKey => EtcdHealthKeyName();
    case EtcdPeerCrt => EtcdPeerCrtName();
    case EtcdPeerKey => EtcdPeerKeyName();
    case EtcdServerCrt => EtcdServerCrtName();
    case EtcdServerKey => EtcdServerKeyName();
  }

  /** certMap is injective. */
  lemma {:induction false} SecretEntryInjective(d: Entry, e: Entry)
    requires SecretEntry(d) == SecretEntry(e)
    ensures d == e
  {
    NamesTell(d);
    NamesTell(e);
  }

  /** The two exclusions of removeFiles, which test base names, spare exactly the files whose role is CA or service
      account. */
  lemma {:induction false} ExclusionsAreRoles(e: Entry)
    ensures ExcludeCaFiles(Path(e).base) || ExcludeSaFiles(Path(e).base) <==> IsCa(e) || IsSa(e)
  {
    NamesTell(e);
    ExclusionsByCharacter(Path(e).base);
  }

  // ---- the table ----

  function EntryOf(n: Name): Entry {
    var key := Dashed(n).base;
    if |key| >= 3 then Decode(Mark(key)) else CaCrt
  }

  lemma {:induction false} EntryOfPath(e: Entry)
    ensures EntryOf(Path(e)) == e && EntryOf(SecretEntry(e)) == e
    ensures SecretEntry(e).dir == ""
  {
    NamesTell(e);
  }

  ghost function Paths(p: Entry -> bool): set<Name> {
    set e: Entry | p(e) :: Path(e)
  }

  ghost function Certs(): Table<Name> {
    Table(
      map n | n in Paths((e: Entry) => true) :: Dashed(n),
      map s | s in (set e: Entry | true :: SecretEntry(e)) :: Path(EntryOf(s)),
      Paths(IsCa),
      Paths(IsSa),
      map n | n in Paths(IsLeaf) :: Path(Issuer(EntryOf(n))),
      map n | n in Paths(IsCertCopy) :: Path(CaCrt),
      map n | n in Paths(IsKeyCopy) :: Path(CaKey),
      Paths(IsLeafCertificate),
      Path(AdminConf),
      (n: Name) => ExcludeCaFiles(n.base) || ExcludeSaFiles(n.base),
      (n: Name) => n.dir != "")
  }

  predicate IsLeaf(e: Entry) { !IsCa(e) && !IsSa(e) }

  predicate IsLeafCertificate(e: Entry) { IsCertificate(e) && !IsCa(e) }

  predicate IsCertCopy(e: Entry) { e == ServerCaCrt || e == ClientCaCrt }

  predicate IsKeyCopy(e: Entry) { e == ServerCaKey || e == ClientCaKey }

  lemma {:induction false} InPaths(p: Entry -> bool, n: Name)
    ensures n in Paths(p) <==> n == Path(EntryOf(n)) && p(EntryOf(n))
  {
    if n in Paths(p) {
      var d: Entry :| p(d) && Path(d) == n;
      EntryOfPath(d);
    }
  }

  // A table read through a naming of the entries and its inverse.
  ghost predicate Naming<N(!new)>(t: Table<N>, path: Entry -> N, key: Entry -> N, entry: N -> Entry) {
    && (forall e :: entry(path(e)) == e && entry(key(e)) == e)
    && (forall n :: n in t.secretKey <==> n == path(entry(n)))
    && (forall n :: n in t.secretKey ==> t.secretKey[n] == key(entry(n)))
    && (forall s :: s in t.file <==> s == key(entry(s)))
    && (forall s :: s in t.file ==> t.file[s] == path(entry(s)))
    && (forall e :: !t.hasSlash(path(e)) ==> key(e) == path(e))
  }

  // A set of files that is one role.
  ghost predicate HasRole<N(!new)>(files: set<N>, role: Entry -> bool, path: Entry -> N, entry: N -> Entry) {
    forall n :: n in files <==> n == path(entry(n)) && role(entry(n))
  }

  lemma {:induction false} NamingIsKeyed<N(!new)>(t: Table<N>, path: Entry -> N, key: Entry -> N, entry: N -> Entry)
    requires Naming(t, path, key, entry)
    ensures t.Keyed()
  {
    forall f, s ensures (f in t.secretKey && t.secretKey[f] == s) <==> (s in t.file && t.file[s] == f) {}
  }

  lemma {:induction false} RoleAt<N(!new)>(files: set<N>, role: Entry -> bool, path: Entry -> N, entry: N -> Entry,
                                           e: Entry)
    requires HasRole(files, role, path, entry) && entry(path(e)) == e
    ensures path(e) in files <==> role(e)
  {
  }

  lemma {:induction false} SourceEntries<N(!new)>(t: Table<N>, path: Entry -> N, entry: N -> Entry, c: Entry)
    requires HasRole(t.ca, IsCa, path, entry)
    requires HasRole(t.certCopies.Keys, IsCertCopy, path, entry) && HasRole(t.keyCopies.Keys, IsKeyCopy, path, entry)
    requires entry(path(c)) == c && c in {CaCrt, CaKey, FrontProxyCaCrt, EtcdCaCrt}
    ensures path(c) in t.Sources()
  {
    RoleAt(t.ca, IsCa, path, entry, c);
    RoleAt(t.certCopies.Keys, IsCertCopy, path, entry, c);
    RoleAt(t.keyCopies.Keys, IsKeyCopy, path, entry, c);
  }

  lemma {:induction false} RoleOfPaths(p: Entry -> bool)
    ensures HasRole(Paths(p), p, Path, EntryOf)
  {
    forall n ensures n in Paths(p) <==> n == Path(EntryOf(n)) && p(EntryOf(n)) { InPaths(p, n); }
  }

  lemma {:induction false} CertsEntries()
    ensures forall e :: EntryOf(Path(e)) == e && EntryOf(SecretEntry(e)) == e
  {
    forall e: Entry ensures EntryOf(Path(e)) == e && EntryOf(SecretEntry(e)) == e { EntryOfPath(e); }
  }

  lemma {:induction false} CertsFiles(s: Name)
    ensures s in Certs().file <==> s == SecretEntry(EntryOf(s))
  {
    assert s in (set e: Entry | true :: SecretEntry(e)) <==> exists e: Entry :: SecretEntry(e) == s;
    if e: Entry :| SecretEntry(e) == s { EntryOfPath(e); }
  }

  lemma {:induction false} CertsNaming()
    ensures Naming(Certs(), Path, SecretEntry, EntryOf)
  {
    var t := Certs();
    CertsEntries();
    forall n ensures n in t.secretKey <==> n == Path(EntryOf(n)) { InPaths((e: Entry) => true, n); }
    forall s ensures s in t.file <==> s == SecretEntry(EntryOf(s)) { CertsFiles(s); }
  }

  lemma {:induction false} CertsKeyed()
    ensures Certs().Keyed()
  {
    CertsNaming();
    NamingIsKeyed(Certs(), Path, SecretEntry, EntryOf);
  }

  lemma {:induction false} CertsCoverAt(f: Name)
    ensures f in Certs().Lasting() ==> f in Certs().secretKey
    ensures f in Certs().issuer <==> f in Certs().Leaves()
  {
    InPaths((e: Entry) => true, f);
    InPaths(IsCa, f);
    InPaths(IsSa, f);
    InPaths(IsLeaf, f);
  }

  lemma {:induction false} CoverSets<N(!new)>(t: Table<N>)
    requires forall f :: f in t.Lasting() ==> f in t.secretKey
    requires forall f :: f in t.issuer <==> f in t.Leaves()
    ensures t.Lasting() <= t.secretKey.Keys && t.issuer.Keys == t.Leaves()
  {
  }

  lemma {:induction false} CertsCover(t: Table<Name>)
    requires t == Certs()
    ensures t.Lasting() <= t.secretKey.Keys && t.issuer.Keys == t.Leaves()
  {
    forall f ensures f in t.Lasting() ==> f in t.secretKey { CertsCoverAt(f); }
    forall f ensures f in t.issuer <==> f in t.Leaves() { CertsCoverAt(f); }
    CoverSets(t);
  }

  lemma {:induction false} CertsLeaf(e: Entry)
    requires IsLeaf(e)
    ensures Path(e) in Certs().Leaves()
  {
    EntryOfPath(e);
    InPaths(IsLeaf, Path(e));
    CertsCoverAt(Path(e));
  }

  lemma {:induction false} CertsSource(c: Entry)
    requires c in {CaCrt, CaKey, FrontProxyCaCrt, EtcdCaCrt}
    ensures Path(c) in Certs().Sources()
  {
    RoleOfPaths(IsCa);
    RoleOfPaths(IsCertCopy);
    RoleOfPaths(IsKeyCopy);
    EntryOfPath(c);
    SourceEntries(Certs(), Path, EntryOf, c);
  }

  lemma {:induction false} CertsCertCopies(f: Name)
    ensures f in Certs().certCopies ==> f in Certs().ca && Certs().certCopies[f] == Path(CaCrt)
  {
    InPaths(IsCa, f);
    InPaths(IsCertCopy, f);
  }

  lemma {:induction false} CertsKeyCopies(f: Name)
    ensures f in Certs().keyCopies ==> f in Certs().ca && Certs().keyCopies[f] == Path(CaKey)
  {
    InPaths(IsCa, f);
    InPaths(IsKeyCopy, f);
  }

  lemma {:induction false} CertsCopiesDiffer(f: Name)
    ensures f in Certs().keyCopies ==> f !in Certs().certCopies
  {
    InPaths(IsCertCopy, f);
    InPaths(IsKeyCopy, f);
  }

  lemma {:induction false} CertsKept(f: Name)
    requires f in Certs().secretKey
    ensures Certs().isKept(f) <==> f in Certs().Lasting()
  {
    InPaths((e: Entry) => true, f);
    InPaths(IsCa, f);
    InPaths(IsSa, f);
    ExclusionsAreRoles(EntryOf(f));
  }

  lemma {:induction false} CertsIssuers(t: Table<Name>)
    requires t == Certs()
    ensures forall f :: f in t.issuer ==> t.issuer[f] in t.Sources()
  {
    forall f | f in t.issuer ensures t.issuer[f] in t.Sources() {
      CertsSource(Issuer(EntryOf(f)));
    }
  }

  lemma {:induction false} CertsCopied(t: Table<Name>)
    requires t == Certs()
    ensures forall f :: f in t.certCopies ==> f in t.ca && t.certCopies[f] in t.Sources()
    ensures forall f :: f in t.keyCopies ==> f in t.ca && f !in t.certCopies && t.keyCopies[f] in t.Sources()
  {
    CertsSource(CaCrt);
    CertsSource(CaKey);
    forall f
      ensures f in t.certCopies ==> f in t.ca && t.certCopies[f] in t.Sources()
      ensures f in t.keyCopies ==> f in t.ca && f !in t.certCopies && t.keyCopies[f] in t.Sources()
    {
      CertsCertCopies(f);
      CertsKeyCopies(f);
      CertsCopiesDiffer(f);
    }
  }

  lemma {:induction false} CertsLeafCertificates(t: Table<Name>)
    requires t == Certs()
    ensures t.certificates <= t.Leaves()
  {
    forall f | f in t.certificates ensures f in t.Leaves() {
      InPaths(IsLeafCertificate, f);
      CertsLeaf(EntryOf(f));
    }
  }

  lemma {:induction false} CertsSpared(t: Table<Name>)
    requires t == Certs()
    ensures forall f :: f in t.secretKey ==> (t.isKept(f) <==> f in t.Lasting())
  {
    forall f | f in t.secretKey ensures t.isKept(f) <==> f in t.Lasting() { CertsKept(f); }
  }

  lemma {:induction false} ValidByParts<N(!new)>(t: Table<N>)
    requires t.Keyed() && t.Lasting() <= t.secretKey.Keys && t.issuer.Keys == t.Leaves() && t.admin in t.Leaves()
    requires t.certificates <= t.Leaves()
    requires forall f :: f in t.issuer ==> t.issuer[f] in t.Sources()
    requires forall f :: f in t.certCopies ==> f in t.ca && t.certCopies[f] in t.Sources()
    requires forall f :: f in t.keyCopies ==> f in t.ca && f !in t.certCopies && t.keyCopies[f] in t.Sources()
    requires forall f :: f in t.secretKey ==> (t.isKept(f) <==> f in t.Lasting())
    ensures t.Valid()
  {
  }

  /** The protocol of CertWorld applies to the table that ships. */
  lemma {:induction false} CertsValid()
    ensures Certs().Valid()
  {
    var t := Certs();
    CertsKeyed();
    CertsCover(t);
    CertsLeaf(AdminConf);
    CertsLeafCertificates(t);
    CertsIssuers(t);
    CertsCopied(t);
    CertsSpared(t);
    ValidByParts(t);
  }
}
