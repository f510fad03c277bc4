// The PKI directory and the certs Secret of pkg/certs: the local steps that replicas are made of.
// PEM contents are opaque; a blob remembers the generation run and the CA that produced it.
module CertFiles {
  import opened Common

  datatype Blob<N> =
    | Root(run: nat, file: N)                   // a CA or service-account file
    | Issued(run: nat, file: N, signer: Blob<N>)   // a leaf, signed by the CA file that was on disk
    | Bundle(blocks: seq<Blob<N>>)
    | Raw(id: nat)
    | NoBytes

  type Disk<N(==)> = map<N, Blob<N>>
  type Data<N(==)> = map<N, Blob<N>>

  // certMap together with what kubeadm and splitCACert make of each file.
  datatype Table<!N(==,!new)> = Table(
    secretKey: map<N, N>,   // certMap: file -> entry of the Secret
    file: map<N, N>,        // its inverse
    ca: set<N>,
    sa: set<N>,
    issuer: map<N, N>,      // leaf file -> signing CA file
    certCopies: map<N, N>,  // file -> CA certificate whose first block it gets
    keyCopies: map<N, N>,   // file -> CA key it copies
    certificates: set<N>,   // leaf certificates, whose expiry is looked at
    admin: N,                    // the kubeconfig that is always written again
    isKept: N -> bool,               // files that removeFiles leaves alone
    hasSlash: N -> bool)             // names that cannot be entries of a Secret
  {
    // certMap is injective, which is what having an inverse means.
    ghost predicate Invertible() {
      forall f, s :: (f in secretKey && secretKey[f] == s) <==> (s in file && file[s] == f)
    }

    function Lasting(): set<N> { ca + sa }

    function Leaves(): set<N> { secretKey.Keys - ca - sa }

    // An entry of the Secret that certMap does not name never overwrites a file that it does.
    ghost predicate Keyed() {
      && Invertible()
      && (forall f :: f in secretKey && f !in file ==> hasSlash(f))
    }

    ghost predicate Valid() {
      && Keyed()
      && Lasting() <= secretKey.Keys
      && admin in Leaves()
      && issuer.Keys == Leaves() && certificates <= Leaves()
      && (forall f {:trigger issuer[f]} :: f in issuer ==> issuer[f] in Sources())
      && (forall f {:trigger certCopies[f]} :: f in certCopies ==> f in ca && certCopies[f] in Sources())
      && (forall f {:trigger keyCopies[f]} :: f in keyCopies ==>
            f in ca && f !in certCopies && keyCopies[f] in Sources())
      && (forall f :: f in secretKey ==> (isKept(f) <==> f in Lasting()))
    }

    // The CA files that exist in their own right.
    function Sources(): set<N> { ca - certCopies.Keys - keyCopies.Keys }
  }

  // Keys of a Secret consist of alphanumerics, '-', '_' and '.'.
  predicate SecretData<N(==,!new)>(t: Table<N>, data: Data<N>) {
    forall s :: s in data ==> !t.hasSlash(s)
  }

  function FirstBlock<N(==,!new)>(b: Blob<N>): Blob<N> {
    if b.Bundle? && |b.blocks| > 0 then b.blocks[0] else b
  }

  function Lookup<N(==,!new)>(disk: Disk<N>, f: N): Option<Blob<N>> {
    if f in disk then Some(disk[f]) else None
  }

  // The bytes that the Secret holds for file f.
  function At<N(==,!new)>(t: Table<N>, data: Data<N>, f: N): Option<Blob<N>> {
    if f in t.secretKey && t.secretKey[f] in data then Some(data[t.secretKey[f]]) else None
  }

  // ---- splitCACert ----

  // What splitCACert would write, if it were missing.
  function CertCopies<N(==,!new)>(t: Table<N>, disk: Disk<N>): Disk<N> {
    map f | f in t.certCopies && t.certCopies[f] in disk :: FirstBlock(disk[t.certCopies[f]])
  }

  function KeyCopies<N(==,!new)>(t: Table<N>, disk: Disk<N>): Disk<N> {
    map f | f in t.keyCopies && t.keyCopies[f] in disk :: disk[t.keyCopies[f]]
  }

  function Split<N(==,!new)>(t: Table<N>, disk: Disk<N>): Disk<N> {
    CertCopies(t, disk) + KeyCopies(t, disk) + disk
  }

  // ---- generateCertificates ----

  // The CA file a run of kubeadm signs with: the one on disk, else a new one.
  function Authority<N(==,!new)>(disk: Disk<N>, run: nat, c: N): Blob<N> {
    if c in disk then disk[c] else Root(run, c)
  }

  // A file as one generation run leaves it: existing files stay, except the admin kubeconfig.
  function Generated<N(==,!new)>(t: Table<N>, disk: Disk<N>, run: nat, f: N): Blob<N>
    requires f in t.secretKey
  {
    if f in disk && f != t.admin then disk[f]
    else if f in t.issuer then Issued(run, f, Authority(disk, run, t.issuer[f]))
    else if f in t.certCopies then FirstBlock(Authority(disk, run, t.certCopies[f]))
    else if f in t.keyCopies then Authority(disk, run, t.keyCopies[f])
    else Root(run, f)
  }

  function Generate<N(==,!new)>(t: Table<N>, disk: Disk<N>, run: nat): (d: Disk<N>)
    ensures d.Keys == disk.Keys + t.secretKey.Keys
  {
    map f | f in disk.Keys + t.secretKey.Keys :: if f in t.secretKey then Generated(t, disk, run, f) else disk[f]
  }

  // ---- the Secret ----

  function Upload<N(==,!new)>(t: Table<N>, disk: Disk<N>): Data<N> {
    map s | s in t.file && t.file[s] in disk :: disk[t.file[s]]
  }

  // downloadCertsFromSecret before splitCACert: entries that certMap names go to its files, others keep their name.
  function Written<N(==,!new)>(t: Table<N>, data: Data<N>): Disk<N> {
    Unnamed(t, data) + Named(t, data)
  }

  function Named<N(==,!new)>(t: Table<N>, data: Data<N>): Disk<N> {
    map f | f in t.secretKey && t.secretKey[f] in data :: data[t.secretKey[f]]
  }

  function Unnamed<N(==,!new)>(t: Table<N>, data: Data<N>): Disk<N> {
    map s | s in data && s !in t.file :: data[s]
  }

  // The download refuses a Secret in which an entry of certMap has no bytes.
  predicate Complete<N(!new)>(t: Table<N>, data: Data<N>) {
    forall s :: s in data && s in t.file ==> data[s] != NoBytes
  }

  // certsExpiringSoon: a leaf certificate is missing, or stale at the moment.
  predicate Expiring<N(!new)>(t: Table<N>, data: Data<N>, stale: set<Blob<N>>) {
    exists f :: f in t.certificates && (At(t, data, f).None? || At(t, data, f).value in stale)
  }

  function Download<N(==,!new)>(t: Table<N>, disk: Disk<N>, data: Data<N>): Disk<N> {
    Split(t, disk + Written(t, data))
  }

  lemma {:induction false} UploadAt<N(!new)>(t: Table<N>, disk: Disk<N>, f: N)
    requires t.Invertible() && f in t.secretKey
    ensures At(t, Upload(t, disk), f) == Lookup(disk, f)
  {
    assert t.file[t.secretKey[f]] == f;
  }

  lemma {:induction false} DownloadAt<N(!new)>(t: Table<N>, disk: Disk<N>, data: Data<N>, f: N)
    requires At(t, data, f).Some?
    ensures Lookup(Download(t, disk, data), f) == At(t, data, f)
  {
    assert f in Named(t, data);
    var w := disk + Written(t, data);
    assert f in w && w[f] == Named(t, data)[f];
  }

  lemma {:induction false} SplitAt<N(!new)>(t: Table<N>, disk: Disk<N>, f: N)
    ensures Lookup(Split(t, disk), f) ==
              if f in disk then Some(disk[f])
              else if f in t.keyCopies && t.keyCopies[f] in disk then Some(disk[t.keyCopies[f]])
              else if f in t.certCopies && t.certCopies[f] in disk then Some(FirstBlock(disk[t.certCopies[f]]))
              else None
  {
  }

  lemma {:induction false} WrittenAt<N(!new)>(t: Table<N>, disk: Disk<N>, data: Data<N>, f: N)
    ensures Lookup(disk + Written(t, data), f) ==
              if At(t, data, f).Some? then At(t, data, f)
              else if f in data && f !in t.file then Some(data[f])
              else Lookup(disk, f)
  {
    assert f in Named(t, data) <==> At(t, data, f).Some?;
    assert f in Unnamed(t, data) <==> f in data && f !in t.file;
  }

  /** What a download does to each file: an entry of the Secret goes to the file that certMap gives it, or else to one
      of its own name; then a missing copy of the CA is filled in, with the key or with the first block of the
      certificate; every other file stays. */
  lemma {:induction false} DownloadFile<N(!new)>(t: Table<N>, disk: Disk<N>, data: Data<N>, f: N)
    ensures var written, after := disk + Written(t, data), Lookup(Download(t, disk, data), f);
            if At(t, data, f).Some? then after == At(t, data, f)
            else if f in data && f !in t.file then after == Some(data[f])
            else if f in disk then after == Some(disk[f])
            else if f in t.keyCopies && t.keyCopies[f] in written then after == Some(written[t.keyCopies[f]])
            else if f in t.certCopies && t.certCopies[f] in written then
              after == Some(FirstBlock(written[t.certCopies[f]]))
            else after == None
  {
    WrittenAt(t, disk, data, f);
    SplitAt(t, disk + Written(t, data), f);
  }

  /** Download undoes upload: whatever was on disk before, every certMap file gets the uploader's bytes. */
  lemma {:induction false} DownloadUndoesUpload<N(!new)>(t: Table<N>, from: Disk<N>, onto: Disk<N>, f: N)
    requires t.Invertible() && f in t.secretKey && f in from
    ensures Lookup(Download(t, onto, Upload(t, from)), f) == Some(from[f])
  {
    UploadAt(t, from, f);
    DownloadAt(t, onto, Upload(t, from), f);
  }

  // ---- removeFiles ----

  function Strip<N(==,!new)>(t: Table<N>, disk: Disk<N>): Disk<N> {
    map f | f in disk && t.isKept(f) :: disk[f]
  }

  // ---- SyncSecret ----

  predicate Changes<N(==,!new)>(base: Data<N>, data: Data<N>, s: N) {
    s in data && (s !in base || base[s] != data[s])
  }

  predicate Drops<N(==,!new)>(base: Data<N>, data: Data<N>, s: N) {
    s in base && s !in data
  }

  // A merge patch from base to data, applied to what the Secret holds by then.
  function Patch<N(==,!new)>(now: Data<N>, base: Data<N>, data: Data<N>): Data<N> {
    map s | s in now.Keys + data.Keys && (Changes(base, data, s) || (s in now && !Drops(base, data, s))) ::
      if Changes(base, data, s) then data[s] else now[s]
  }

  /** An entry is patched, which may mean dropped, exactly when the directory differs from what was read. */
  lemma {:induction false} PatchAt<N(!new)>(t: Table<N>, now: Data<N>, base: Data<N>, data: Data<N>, f: N)
    ensures At(t, Patch(now, base, data), f) ==
              if At(t, base, f) == At(t, data, f) then At(t, now, f) else At(t, data, f)
  {
  }

  // ---- the same steps as the source performs them ----

  class PkiDir<N(==,!new)> {
    var files: Disk<N>

    constructor ()
      ensures files == map[]
    {
      files := map[];
    }

    /** copyFileIfNotExists. */
    method CopyIfNotExists(bytes: Blob<N>, dst: N)
      modifies this
      ensures files == map[dst := bytes] + old(files)
    {
      if dst !in files {
        files := files[dst := bytes];
      }
    }

    /** The loop of downloadCertsFromSecret, for any iteration order of the Secret; left is what it did not get to. */
    method WriteEntries(t: Table<N>, data: Data<N>) returns (ok: bool, ghost left: set<N>)
      requires t.Keyed() && SecretData(t, data)
      modifies this
      ensures ok <==> Complete(t, data)
      ensures left <= data.Keys && files == old(files) + Written(t, data - left)
      ensures ok ==> files == old(files) + Written(t, data)
    {
      var todo := data.Keys;
      WriteNone(t, files, data);
      while todo != {}
        invariant todo <= data.Keys
        invariant files == old(files) + Written(t, data - todo)
        invariant forall s :: s in data && s !in todo && s in t.file ==> data[s] != NoBytes
        decreases |todo|
      {
        var s :| s in todo;
        if s in t.file && data[s] == NoBytes {
          return false, todo;
        }
        var name := FindFile(t, s);
        WriteStep(t, old(files), data, todo, s, name);
        files := files[name := data[s]];
        todo := todo - {s};
      }
      assert data - {} == data;
      return true, {};
    }

    /** splitCACert; readable says that the first PEM block of the CA file is a certificate. The CA key is read only
        where a copy of it is missing. */
    method SplitCaCert(t: Table<N>, caCert: N, caKey: N, serverCert: N, serverKey: N, clientCert: N, clientKey: N,
                       readable: bool)
      returns (ok: bool)
      requires t.certCopies == map[serverCert := caCert, clientCert := caCert]
      requires t.keyCopies == map[serverKey := caKey, clientKey := caKey]
      requires {serverCert, clientCert} !! {serverKey, clientKey, caKey}
      modifies this
      ensures ok <==>
                caCert in old(files) && readable && (caKey in old(files) || {serverKey, clientKey} <= old(files).Keys)
      ensures ok ==> files == Split(t, old(files))
      ensures forall f :: f in old(files) ==> f in files && files[f] == old(files)[f]
      ensures files.Keys <= old(files).Keys + {serverCert, serverKey, clientCert, clientKey}
    {
      if caCert !in files || !readable {
        return false;
      }
      var block := FirstBlock(files[caCert]);
      PairedGrows(files, block, caKey, serverCert, serverKey);
      ok := CopyPair(block, caKey, serverCert, serverKey);
      if !ok {
        return;
      }
      PairedGrows(files, block, caKey, clientCert, clientKey);
      ok := CopyPair(block, caKey, clientCert, clientKey);
      if ok {
        TwoPairs(t, old(files), caCert, caKey, serverCert, serverKey, clientCert, clientKey);
      }
    }

    // A copy of the certificate block and one of the CA key, where they are missing.
    method CopyPair(block: Blob<N>, caKey: N, cert: N, key: N) returns (ok: bool)
      requires cert != key && cert != caKey
      modifies this
      ensures ok <==> key in old(files) || caKey in old(files)
      ensures files == Paired(old(files), block, caKey, cert, key)
    {
      CopyIfNotExists(block, cert);
      if key in files {
        return true;
      }
      if caKey !in files {
        return false;
      }
      files := files[key := files[caKey]];
      return true;
    }

    /** removeFiles with both exclusions, in any walk order. */
    method RemoveFiles(t: Table<N>)
      modifies this
      ensures files == Strip(t, old(files))
    {
      var todo := files.Keys;
      while todo != {}
        invariant todo <= files.Keys <= old(files).Keys
        invariant forall f :: f in files ==> files[f] == old(files)[f]
        invariant forall f :: f in old(files) && f !in todo ==> (f in files <==> t.isKept(f))
        decreases |todo|
      {
        var f :| f in todo;
        todo := todo - {f};
        if !t.isKept(f) {
          files := files - {f};
        }
      }
    }
  }

  function Paired<N(==,!new)>(base: Disk<N>, block: Blob<N>, caKey: N, cert: N, key: N): Disk<N> {
    var copied := map[cert := block] + base;
    if key !in copied && caKey in copied then copied[key := copied[caKey]] else copied
  }

  lemma {:induction false} TwoPairs<N(!new)>(t: Table<N>, base: Disk<N>, caCert: N, caKey: N, sc: N, sk: N, cc: N,
                                             ck: N)
    requires caCert in base && {sc, cc} !! {sk, ck, caKey} && (caKey in base || {sk, ck} <= base.Keys)
    requires t.certCopies == map[sc := caCert, cc := caCert] && t.keyCopies == map[sk := caKey, ck := caKey]
    ensures var b := FirstBlock(base[caCert]);
            Paired(Paired(base, b, caKey, sc, sk), b, caKey, cc, ck) == Split(t, base)
  {
    var b := FirstBlock(base[caCert]);
    assert CertCopies(t, base) == map[sc := b, cc := b];
    if caKey in base {
      FourSums(base, b, caKey, sc, sk, cc, ck);
      KeysCopied(t, base, caKey, sk, ck);
    } else {
      TwoSums(base, b, sc, cc);
      assert KeyCopies(t, base) == map[];
    }
  }

  lemma {:induction false} KeysCopied<N(!new)>(t: Table<N>, base: Disk<N>, caKey: N, sk: N, ck: N)
    requires caKey in base && t.keyCopies == map[sk := caKey, ck := caKey]
    ensures KeyCopies(t, base) == map[sk := base[caKey], ck := base[caKey]]
  {
  }

  lemma {:induction false} PairedGrows<N(!new)>(base: Disk<N>, block: Blob<N>, caKey: N, cert: N, key: N)
    ensures var after := Paired(base, block, caKey, cert, key);
            && (forall f :: f in base ==> f in after && after[f] == base[f])
            && after.Keys <= base.Keys + {cert, key}
  {
  }

  lemma {:induction false} TwoSums<N(!new)>(base: Disk<N>, b: Blob<N>, sc: N, cc: N)
    ensures map[cc := b] + (map[sc := b] + base) == map[sc := b, cc := b] + map[] + base
  {
  }

  lemma {:induction false} FourSums<N(!new)>(base: Disk<N>, b: Blob<N>, caKey: N, sc: N, sk: N, cc: N, ck: N)
    requires {sc, cc} !! {sk, ck, caKey} && caKey in base
    ensures Paired(Paired(base, b, caKey, sc, sk), b, caKey, cc, ck) ==
            map[sc := b, cc := b] + map[sk := base[caKey], ck := base[caKey]] + base
  {
  }

  // The name of the file for an entry: the one that certMap gives it, else its own.
  method FindFile<N(==,!new)>(t: Table<N>, s: N) returns (name: N)
    requires t.Keyed()
    ensures name == if s in t.file then t.file[s] else s
  {
    name := s;
    if s in t.file {
      var todo := t.secretKey.Keys;
      while true
        invariant todo <= t.secretKey.Keys
        invariant t.file[s] in todo
        decreases |todo|
      {
        var key :| key in todo;
        if t.secretKey[key] == s {
          return key;
        }
        todo := todo - {key};
      }
    }
  }

  // One more entry of the Secret is one more file.
  lemma {:induction false} WriteOne<N(!new)>(t: Table<N>, data: Data<N>, s: N, b: Blob<N>, name: N)
    requires t.Keyed() && SecretData(t, data) && !t.hasSlash(s) && s !in data
    requires name == if s in t.file then t.file[s] else s
    ensures Written(t, data[s := b]) == Written(t, data)[name := b]
  {
    if s in t.file {
      WriteNamed(t, data, s, b);
    } else {
      WriteUnnamed(t, data, s, b);
    }
    PutIntoSum(Unnamed(t, data), Named(t, data), name, b);
  }

  lemma {:induction false} PutIntoSum<N(!new)>(u: Disk<N>, n: Disk<N>, f: N, b: Blob<N>)
    ensures u + n[f := b] == (u + n)[f := b]
    ensures f !in n ==> u[f := b] + n == (u + n)[f := b]
  {
  }

  lemma {:induction false} WriteNamed<N(!new)>(t: Table<N>, data: Data<N>, s: N, b: Blob<N>)
    requires t.Invertible() && s in t.file && s !in data
    ensures Unnamed(t, data[s := b]) == Unnamed(t, data)
    ensures Named(t, data[s := b]) == Named(t, data)[t.file[s] := b]
  {
    assert t.secretKey[t.file[s]] == s;
    forall f | f in t.secretKey ensures t.secretKey[f] == s <==> f == t.file[s] {}
  }

  lemma {:induction false} WriteUnnamed<N(!new)>(t: Table<N>, data: Data<N>, s: N, b: Blob<N>)
    requires t.Keyed() && s !in t.file && s !in data && !t.hasSlash(s)
    ensures Unnamed(t, data[s := b]) == Unnamed(t, data)[s := b]
    ensures Named(t, data[s := b]) == Named(t, data)
    ensures s !in Named(t, data)
  {
    forall f | f in t.secretKey ensures t.secretKey[f] != s {}
  }

  lemma {:induction false} WriteStep<N(!new)>(t: Table<N>, base: Disk<N>, data: Data<N>, todo: set<N>, s: N, name: N)
    requires t.Keyed() && SecretData(t, data) && s in todo && todo <= data.Keys
    requires name == if s in t.file then t.file[s] else s
    ensures base + Written(t, data - (todo - {s})) == (base + Written(t, data - todo))[name := data[s]]
  {
    var done := data - todo;
    assert data - (todo - {s}) == done[s := data[s]];
    WriteOne(t, done, s, data[s], name);
    var w := Written(t, done);
    assert base + w[name := data[s]] == (base + w)[name := data[s]];
  }

  lemma {:induction false} WriteNone<N(!new)>(t: Table<N>, base: Disk<N>, data: Data<N>)
    ensures base + Written(t, data - data.Keys) == base
  {
    assert data - data.Keys == map[];
    assert Written(t, data - data.Keys) == map[];
  }

  /** The upload loops of EnsureCerts and SyncSecret: files of certMap that exist, in any order. */
  method CollectData<N(==,!new)>(t: Table<N>, disk: Disk<N>) returns (data: Data<N>)
    requires t.Keyed()
    ensures data == Upload(t, disk)
  {
    data := map[];
    var todo := t.secretKey.Keys;
    assert Seen(t, disk, todo) == map[];
    while todo != {}
      invariant todo <= t.secretKey.Keys
      invariant data == Upload(t, Seen(t, disk, todo))
      decreases |todo|
    {
      var f :| f in todo;
      UploadStep(t, disk, todo, f);
      if f in disk {
        data := data[t.secretKey[f] := disk[f]];
      }
      todo := todo - {f};
    }
    UploadReads(t, disk);
  }

  function Seen<N(==,!new)>(t: Table<N>, disk: Disk<N>, todo: set<N>): Disk<N> {
    map f | f in disk && f in t.secretKey && f !in todo :: disk[f]
  }

  lemma {:induction false} UploadStep<N(!new)>(t: Table<N>, disk: Disk<N>, todo: set<N>, f: N)
    requires t.Keyed() && f in todo && f in t.secretKey
    ensures var seen := Seen(t, disk, todo);
            Upload(t, Seen(t, disk, todo - {f})) ==
              if f in disk then Upload(t, seen)[t.secretKey[f] := disk[f]] else Upload(t, seen)
  {
    var seen := Seen(t, disk, todo);
    if f in disk {
      assert Seen(t, disk, todo - {f}) == seen[f := disk[f]];
      UploadOne(t, seen, f, disk[f]);
    } else {
      assert Seen(t, disk, todo - {f}) == seen;
    }
  }

  lemma {:induction false} UploadOne<N(!new)>(t: Table<N>, disk: Disk<N>, f: N, b: Blob<N>)
    requires t.Keyed() && f in t.secretKey && f !in disk
    ensures Upload(t, disk[f := b]) == Upload(t, disk)[t.secretKey[f] := b]
  {
    assert t.file[t.secretKey[f]] == f;
  }

  lemma {:induction false} UploadReads<N(!new)>(t: Table<N>, disk: Disk<N>)
    requires t.Keyed()
    ensures Upload(t, Seen(t, disk, {})) == Upload(t, disk)
  {
    forall s | s in t.file ensures t.file[s] in t.secretKey {}
  }
}
