// pkg/certs/ensure.go (certsExpiringSoon, isCAFile): which certificates decide that a Secret is renewed.
module CertExpiry {
  import opened CertFiles
  import opened CertTable
  import opened Text

  // The PEM bytes of an entry, by what parsing them tells.
  datatype Pem = Empty | Unparseable | Parsed(expired: seq<bool>)

  // isCAFile, for any way of naming the entries.
  predicate IsCaKey(name: Entry -> Name, key: Name) {
    || key == name(CaCrt) || key == name(ServerCaCrt) || key == name(ClientCaCrt)
    || key == name(FrontProxyCaCrt) || key == name(EtcdCaCrt)
  }

  predicate IsCaFile(key: Name) {
    IsCaKey(SecretEntry, key)
  }

  predicate Checked(key: Name) {
    HasSuffix(key.base, ".crt") && !IsCaFile(key)
  }

  lemma {:induction false} CrtSuffix(b: string)
    ensures HasSuffix(b, ".crt") <==> EndsInCrt(b)
  {
    if |b| >= 4 {
      var tail := b[|b| - 4..];
      assert forall i :: 0 <= i < 4 ==> tail[i] == b[|b| - 4 + i];
      if EndsInCrt(b) { assert tail == ".crt"; }
    }
  }

  lemma {:induction false} DashedSuffix(n: Name)
    requires |n.base| >= 4
    ensures EndsInCrt(Dashed(n).base) <==> EndsInCrt(n.base)
  {
    if n.dir != "" {
      SuffixOfSum(n.dir + "-", n.base);
    }
  }

  lemma {:induction false} SuffixOfSum(a: string, b: string)
    requires |b| >= 4
    ensures EndsInCrt(a + b) <==> EndsInCrt(b)
  {
  }

  lemma {:induction false} IsCaKeyIff(name: Entry -> Name, e: Entry)
    requires forall d :: name(d) == name(e) ==> d == e
    ensures IsCaKey(name, name(e)) <==> IsCa(e) && IsCertificate(e)
  {
  }

  lemma {:induction false} IsCaFileIff(e: Entry)
    ensures IsCaFile(SecretEntry(e)) <==> IsCa(e) && IsCertificate(e)
  {
    var name := SecretEntry;
    forall d | name(d) == name(e) ensures d == e { SecretEntryInjective(d, e); }
    IsCaKeyIff(name, e);
  }

  lemma {:induction false} SuffixIff(e: Entry)
    ensures HasSuffix(Path(e).base, ".crt") <==> IsCertificate(e)
    ensures HasSuffix(SecretEntry(e).base, ".crt") <==> IsCertificate(e)
  {
    NamesTell(e);
    DashedSuffix(Path(e));
    CrtSuffix(SecretEntry(e).base);
    CrtSuffix(Path(e).base);
  }

  /** The certificates that can trigger a renewal are exactly the leaf certificates, which are those that removeFiles
      does not spare (ExclusionsAreRoles). */
  lemma {:induction false} CheckedIff(e: Entry)
    ensures Checked(SecretEntry(e)) <==> IsCertificate(e) && !IsCa(e)
  {
    SuffixIff(e);
    IsCaFileIff(e);
  }

  // Missing, empty, unparseable, or with an expired certificate in it.
  predicate Stale(data: map<Name, Pem>, key: Name) {
    !(key in data && data[key].Parsed?) || true in data[key].expired
  }

  // keys are the entries of certMap, visited in any order.
  method CertsExpiringSoon(data: map<Name, Pem>, keys: set<Name>) returns (soon: bool)
    ensures soon <==> exists key :: key in keys && Checked(key) && Stale(data, key)
  {
    var todo := keys;
    while todo != {}
      invariant todo <= keys
      invariant forall key :: key in keys && key !in todo && Checked(key) ==> !Stale(data, key)
      decreases |todo|
    {
      var key :| key in todo;
      todo := todo - {key};
      soon := ExpiringSoon(data, key);
      if soon {
        return;
      }
    }
    return false;
  }

  // The body of that loop.
  method ExpiringSoon(data: map<Name, Pem>, key: Name) returns (soon: bool)
    ensures soon <==> Checked(key) && Stale(data, key)
  {
    if !HasSuffix(key.base, ".crt") {
      return false;
    }
    if IsCaFile(key) {
      return false;
    }
    if key !in data || data[key].Empty? {
      return true;
    }
    if data[key].Unparseable? {
      return true;
    }
    for i := 0 to |data[key].expired|
      invariant true !in data[key].expired[..i]
    {
      if data[key].expired[i] {
        return true;
      }
    }
    assert data[key].expired[..|data[key].expired|] == data[key].expired;
    return false;
  }

  /** With the table's own keys: renewal is due exactly when a leaf certificate is stale, and no CA certificate, service
      account key or kubeconfig ever makes it due. */
  lemma {:induction false} RenewalIsDueIff(data: map<Name, Pem>, keys: set<Name>)
    requires forall key :: key in keys <==> exists e :: key == SecretEntry(e)
    ensures (exists key :: key in keys && Checked(key) && Stale(data, key)) <==>
              exists e :: IsCertificate(e) && !IsCa(e) && Stale(data, SecretEntry(e))
  {
    if key :| key in keys && Checked(key) && Stale(data, key) {
      var e :| key == SecretEntry(e);
      CheckedIff(e);
    }
    if e :| IsCertificate(e) && !IsCa(e) && Stale(data, SecretEntry(e)) {
      CheckedIff(e);
      assert SecretEntry(e) in keys;
    }
  }

  // ---- the verdict in the replica protocol ----

  predicate StalePem(p: Pem) {
    !p.Parsed? || true in p.expired
  }

  // What parsing tells about the entries of a Secret.
  function Pems(data: Data<Name>, parse: Blob<Name> -> Pem): map<Name, Pem> {
    map s | s in data :: parse(data[s])
  }

  lemma {:induction false} EntryAt(data: Data<Name>, e: Entry)
    ensures At(Certs(), data, Path(e)) == Lookup(data, SecretEntry(e))
    ensures Path(e) in Certs().certificates <==> IsLeafCertificate(e)
  {
    EntryOfPath(e);
    InPaths((d: Entry) => true, Path(e));
    InPaths(IsLeafCertificate, Path(e));
  }

  // The entry is missing or stale.
  predicate LeafStale<N(!new)>(data: Data<N>, stale: set<Blob<N>>, key: N) {
    key !in data || data[key] in stale
  }

  lemma {:induction false} ExpiringByEntries<N(!new)>(t: Table<N>, path: Entry -> N, key: Entry -> N, entry: N -> Entry,
                                                      data: Data<N>, stale: set<Blob<N>>)
    requires HasRole(t.certificates, IsLeafCertificate, path, entry) && forall e :: entry(path(e)) == e
    requires forall e :: At(t, data, path(e)) == Lookup(data, key(e))
    ensures Expiring(t, data, stale) <==> exists e :: IsLeafCertificate(e) && LeafStale(data, stale, key(e))
  {
    if f :| f in t.certificates && (At(t, data, f).None? || At(t, data, f).value in stale) {
      assert IsLeafCertificate(entry(f)) && LeafStale(data, stale, key(entry(f)));
    }
    if e :| IsLeafCertificate(e) && LeafStale(data, stale, key(e)) {
      assert path(e) in t.certificates;
    }
  }

  lemma {:induction false} ExpiringIff(data: Data<Name>, stale: set<Blob<Name>>, t: Table<Name>)
    requires t == Certs()
    ensures Expiring(t, data, stale) <==> exists e :: IsLeafCertificate(e) && LeafStale(data, stale, SecretEntry(e))
  {
    RoleOfPaths(IsLeafCertificate);
    CertsEntries();
    forall e ensures At(t, data, Path(e)) == Lookup(data, SecretEntry(e)) { EntryAt(data, e); }
    ExpiringByEntries(t, Path, SecretEntry, EntryOf, data, stale);
  }

  /** The condition under which a replica renews is the verdict of CertsExpiringSoon on the parsed Secret. */
  lemma {:induction false} VerdictDecides(data: Data<Name>, parse: Blob<Name> -> Pem, stale: set<Blob<Name>>,
                                          keys: set<Name>, t: Table<Name>)
    requires t == Certs() && forall key :: key in keys <==> exists e :: key == SecretEntry(e)
    requires forall s :: s in data ==> (data[s] in stale <==> StalePem(parse(data[s])))
    ensures Expiring(t, data, stale) <==> exists key :: key in keys && Checked(key) && Stale(Pems(data, parse), key)
  {
    var pems := Pems(data, parse);
    ExpiringIff(data, stale, t);
    RenewalIsDueIff(pems, keys);
    forall e ensures Stale(pems, SecretEntry(e)) <==> LeafStale(data, stale, SecretEntry(e)) {}
  }
}
