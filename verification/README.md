# vCluster: verified core

A Dafny model of the parts of vCluster whose correctness is not visible in any single function, with proofs of what
they promise. `dafny verify dfyconfig.toml` checks everything.

- **etcd access** (`Keys`, `EtcdStore`, `EtcdClient`, `EtcdList`, `EtcdCas`). The server is a multi-version store on which
  other clients take steps between any two requests. The paged stream is proved to be the one-shot listing at one
  revision; conditional writes are proved to form a chain without lost updates or stale winners.
- **Certificates** (`CertFiles`, `CertWorld`, `CertLeaves`, `CertRuns`, `CertRenewal`, `CertTable`, `CertExpiry`). Any
  number of replicas, each with its own PKI directory, share one Secret. One action is one API request, which may fail, or
  one local file step, in the middle of which a replica may stop, with some of the files written. The theorems are over
  all runs and hold for every table that satisfies `Table.Valid`; `CertTable` shows that the real one does.
- **k3s to k8s** (`K3sMigration`, `K3sRuns`). The same style of model for the migration, with optimistic concurrency on
  the Secret.
- **Configuration** (`ConfigDiff`, `OverlayLaw`, `ImageRef`, `FlagTokens`, `KubeConfigFlags`, `NodeSelector`, `Upgrades`).
  Overlays, printers and parsers, legacy flags and upgrade rules. Where a law holds only under a condition, the condition
  is proved to be exact.
- **Validation** (`Validation`, `ConfigChecks`, `Patches`, `NodePools`, `CustomResources`, `SyncMappings`, `DnsMappings`,
  `NamespaceSync`). The validate-and-default pass with its checks written out; what libraries decide (Kubernetes names,
  URLs, certificates, label selectors) is a parameter.
- **Cleanup** (`JsonPatch`, `Cleanup`). The emitted patches run on an interpreter for section 4 of RFC 6901 and
  section 4.2 of RFC 6902.
- **Command line** (`HelmReleases`, `TailIPs`, `DockerNodes`, `KubeContexts`). Newest release, tail addresses, worker
  reconciliation, kubeconfig deletion.
- `Common`, `Text` and `JsonTree` hold the shared definitions.

Where the code and its documentation disagree, the model follows the code: `BackingStoreType` returns the embedded
database, not an unknown store, when nothing is enabled (config/config.go:875-892); the comment on `PutAtRevision` speaks
of revision 0 only, but the code treats every non-positive revision as absence (pkg/etcd/client.go:228-235). `ListStream`
with an empty prefix fails, because etcd refuses an empty start key, while `List` reads the whole store.

Some laws turned out to hold only in part, and then the exact condition is proved, with a failing input: the overlay law
(`OverlayRestoresIff`, `DroppedListLosesItsParent`), one generation run per Secret (`SecretFromOneRunIff`,
`CrashTearsFirstSecret`), rotations that keep the CA (`RotationKeepsIff`, `EarlyRotationReplacesCa`) and sign with the one
in the Secret (`PatchSignsIff`, `EarlyRotationBreaksSignatures`), the image round trip (`RoundTripIff`,
`PlainRegistryIsLost`), the tail addresses (`TailIsInsideIff`, which names the one failing subnet), the legacy export
settings (`SettingsSurviveIff`, `ContextAloneIsLost`), namespace translation independent of the order of mappings
(`AnswersAreUniqueIff`, `OverlapIsAccepted`, `DivergenceIsAccepted`) and the announced form of mappings of the host
namespace (`HostNamespaceFormIff`, `HostNamespaceToOneObject`).

Maps that the source ranges over are visited in an arbitrary order, chosen anew in each turn of a loop. File contents,
certificates and secrets are opaque values.

## Model

| member | source | states |
|---|---|---|
| Keys.NextStartKey | pkg/etcd/client.go:287-294 | The buffer copy returns the key followed by one zero byte. |
| Keys.NextKeyIsLeast | pkg/etcd/client.go:287-294 | That key is the least key above the given one: every key is at most the old key or at least the new one, so a page start neither repeats nor skips a key. |
| Keys.GetPrefixRangeEnd | pkg/etcd/client.go:123-129 | The scan from the back for a byte below 0xff, which is raised and ends the key, gives the least key above everything with the prefix, or 0x00 where there is none, as for all-0xff and empty prefixes. |
| Keys.RangeIsPrefix | pkg/etcd/client.go:123-129 | A key lies in the range from the prefix to that end exactly when it starts with the prefix. |
| EtcdList.ListingIsExact | pkg/etcd/client.go:182-198 | The reference listing of a snapshot holds every key with the prefix once, strictly ascending, with its stored data and mod revision. |
| EtcdList.SnapshotsStay | pkg/etcd/client.go:132-139 | Whatever other clients write between requests, the snapshot at the first page's revision stays readable unchanged. |
| EtcdList.PageOfListing | pkg/etcd/client.go:139-159 | Any page a server may return at the pinned revision is the next slice of the listing, and More says exactly whether rows are left. |
| EtcdList.ProgressAfterPage | pkg/etcd/client.go:151-162 | After a page is sent and the start key advanced, what was sent is a longer prefix of the listing and the new start key begins exactly the rest. |
| EtcdList.ServerStreams | pkg/etcd/client.go:111-171 | Every multi-version server, under every interleaving of other clients' steps, answers the requests of a stream from one listing. |
| EtcdList.StreamPages | pkg/etcd/client.go:121-168 | The page loop terminates and emits the whole listing, or a proper prefix of it and then one error; the whole listing if no request up to the pinned revision fails. |
| EtcdList.ListStream | pkg/etcd/client.go:107-171 | For every page split and every interleaving of writes between pages the stream equals the one-shot listing at the revision of the first request, or is a proper prefix followed by one error; it is the whole listing whenever requests up to that revision are answered; an empty prefix yields only the error. |
| EtcdList.FaultlessServer | pkg/etcd/client.go:111-171 | For every history of other clients there is a server that answers correctly and never fails, so the promise of completion is not empty. |
| EtcdList.List | pkg/etcd/client.go:182-198 | A successful one-shot List returns exactly the reference listing of the current revision, and fails only if the request does. |
| EtcdCas.ModRevisionIsLastWrite | pkg/etcd/client.go:237-276 | In every run from an empty store the mod revision of a key is the revision of the last write to it, or 0 if it was never written or was deleted since. |
| EtcdCas.StoredIsLastCommitted | pkg/etcd/client.go:237-266 | In every run a key is stored exactly when some conditional write to it committed and nothing touched the key since, and then with the bytes and the revision of that write. |
| EtcdCas.DeletionErasesExactly | pkg/etcd/client.go:268-285 | A deletion of a key or of a prefix takes away exactly the stored keys that it names. |
| EtcdCas.RevisionsIncrease | pkg/etcd/client.go:249-265 | Revisions handed out by committed writes strictly increase along a run. |
| EtcdCas.CasCommitsIff | pkg/etcd/client.go:237-266 | In every run a conditional write commits exactly when the revision it names was handed out by a write to the key that nothing has touched since; one that expects absence commits exactly when the key was never touched or last touched by a deletion. |
| EtcdCas.AtMostOneWinner | pkg/etcd/client.go:217-266 | Of two conditional writes naming the same existing revision at most one commits; two that expect absence both commit only around a deletion. |
| EtcdCas.StaleRevisionNeverCommits | pkg/etcd/client.go:252-266 | Once a key is touched after a write, that write's revision and every older one is refused for ever, through any deletions and re-creations. |
| EtcdCas.ReturnedRevisionUsable | pkg/etcd/client.go:228-266 | The revision returned by a write is accepted as the next expected one exactly while nobody touches the key. |
| EtcdCas.PutCommitsIff | pkg/etcd/client.go:217-226 | A Put, as a read and a later conditional write with any steps in between, commits exactly when the key was untouched in between, or was absent and whatever was created was deleted again. |
| EtcdClient.Etcd.Get | pkg/etcd/client.go:200-215 | Returns the stored value and its mod revision, or not found, or an error for a lost request or the empty key; on an error the zero value. |
| EtcdClient.Etcd.Create | pkg/etcd/client.go:237-250 | Succeeds exactly on a healthy request for a key that does not exist, and then stores the given bytes at the returned revision; a conflict changes nothing, a lost reply may leave the write done, and no other entry changes. |
| EtcdClient.Etcd.Update | pkg/etcd/client.go:252-266 | Succeeds exactly on a healthy request for a key at the named revision, and then stores the given bytes at the returned revision; a conflict changes nothing and no other entry changes. |
| EtcdClient.Etcd.PutAtRevision | pkg/etcd/client.go:228-235 | A non-positive revision means the key must not exist, a positive one that it must be at that revision; success stores the given bytes, a conflict changes nothing and no other entry changes. |
| EtcdClient.Etcd.Put | pkg/etcd/client.go:217-226 | With other clients' steps between read and write, succeeds exactly on healthy requests if the mod revision is still the one that was read, and then stores the given bytes; no other entry changes beyond what the others did. |
| EtcdClient.Etcd.Delete | pkg/etcd/client.go:268-276 | The key is gone unless the request was lost, and no other entry changes, data included. |
| EtcdClient.Etcd.DeletePrefix | pkg/etcd/client.go:278-281 | Exactly the keys with the prefix are gone unless the request was lost, and no other entry changes. |
| CertTable.SecretEntryInjective | pkg/certs/constants.go:144-187 | No two files of certMap share a Secret entry, the dashed etcd names included. |
| CertTable.ExclusionsAreRoles | pkg/certs/rotate.go:201-225 | The two exclusions, which look at base names only, spare exactly the CA and service-account files of the table. |
| CertTable.CertsValid | pkg/certs/constants.go:144-187 | The concrete 29-entry table has every property that the replica theorems ask of a table, so they apply to it. |
| CertExpiry.IsCaFileIff | pkg/certs/ensure.go:280-286 | isCAFile holds of an entry of the table exactly when it is a CA certificate. |
| CertExpiry.CheckedIff | pkg/certs/ensure.go:222-231 | The certificates looked at for expiry are exactly the leaf certificates. |
| CertExpiry.CertsExpiringSoon | pkg/certs/ensure.go:222-248 | In any iteration order: true exactly when some checked entry is missing, empty, unparseable or holds an expired certificate. |
| CertExpiry.RenewalIsDueIff | pkg/certs/ensure.go:218-248 | Over the whole table renewal is due exactly when a leaf certificate is stale; a CA certificate, key or kubeconfig never makes it due. |
| CertExpiry.VerdictDecides | pkg/certs/ensure.go:121-128 | The condition under which a replica of the protocol renews is the verdict of certsExpiringSoon on the parsed Secret. |
| CertFiles.DownloadUndoesUpload | pkg/certs/ensure.go:185-217 | Downloading what was uploaded gives every file of the table the uploaded bytes, onto any directory (the server and client CA copies included). |
| CertFiles.DownloadFile | pkg/certs/ensure.go:357-446 | What a download does to each file: entries go to the file that certMap names or to their own name, missing copies of the CA are filled with the key or the first certificate block, and every other file stays. |
| CertFiles.PatchAt | pkg/certs/rotate.go:250-258 | On the Secret as it is by then, the merge patch sets or drops exactly the entries in which the directory differs from what was read, and keeps all others. |
| CertFiles.CollectData | pkg/certs/rotate.go:236-248 | The loop over certMap, in any order, collects exactly the entries of the files that exist. |
| CertFiles.PkiDir.WriteEntries | pkg/certs/ensure.go:357-396 | In any order: refused exactly when an entry of certMap is empty; otherwise the directory has exactly the downloaded files on top of what it had; a refused download has written some of them. |
| CertFiles.PkiDir.SplitCaCert | pkg/certs/ensure.go:398-446 | Fills the missing server and client CA files from the CA pair and touches nothing that exists; fails exactly without a readable CA certificate, or without the CA key where a copy of it is missing. |
| CertFiles.PkiDir.CopyIfNotExists | pkg/certs/ensure.go:448-459 | Writes the file only where none was. |
| CertFiles.PkiDir.RemoveFiles | pkg/certs/rotate.go:177-199 | Removes exactly the files that neither exclusion spares. |
| CertFiles.FindFile | pkg/certs/ensure.go:363-376 | The reverse lookup gives the file that certMap names for an entry, and the entry's own name when there is none. |
| CertWorld.LastingFilesNeverChange | pkg/certs/ensure.go:116-217 | Over every interleaving of starts, renewals, leaf rotations, failing requests and crashes of any number of replicas, a CA or service-account entry of the Secret never changes, and every replica that ever finished EnsureCerts has exactly those bytes, provided that each rotation begins on a replica that some EnsureCerts has filled or whose directory holds the bytes anyway. |
| CertRuns.RotationKeepsIff | pkg/certs/rotate.go:83-123 | That condition is exact: a rotation that nobody disturbs keeps the entry if and only if, before it, the directory holds its bytes, or those that it is a copy of. |
| CertRuns.EarlyRotationReplacesCa | pkg/certs/rotate.go:89-123 | A rotation in an empty directory replaces every CA of the Secret of a running replica. |
| CertWorld.CreatedOnce | pkg/certs/ensure.go:196-211 | Over every run the Secret is created at most once, and exactly once if it exists. |
| CertWorld.RacersAgree | pkg/certs/ensure.go:154-217 | Replicas racing through starts, with crashes, failing requests and any directories: one Create wins, and every replica whose latest EnsureCerts returned success holds the winner's bytes for every file of the table; one that ever did still holds all but admin.conf. |
| CertLeaves.SecretFromOneRunIff | pkg/certs/rotate.go:83-95 | Over every interleaving of starts, renewals, rotations, crashes and failing requests, all leaf entries of the Secret come from one generation run if and only if the Secret was patched since its creation or the start that created it found no leaf file but admin.conf; under the same condition they are signed by the CA entries beside them, provided that rotations begin as above. |
| CertRuns.PatchSignsIff | pkg/certs/rotate.go:230-260 | In every run, however rotations begin, a patch puts its leaves beside the CA that signed them if and only if the directory brings its own CA or the Secret's has not changed since it was read. |
| CertRuns.EarlyRotationBreaksSignatures | pkg/certs/rotate.go:230-260 | Without that proviso: a rotation in an empty directory, between the read and the patch of another one, leaves leaves of one run beside a CA that did not sign them. |
| CertLeaves.OnceWholeAlwaysWhole | pkg/certs/ensure.go:130-150 | A Secret whose leaves come from one run keeps that property in every continuation, and is signed by the CA beside it where rotations begin as above. |
| CertLeaves.UploadFromOneRunIff | pkg/certs/ensure.go:154-194 | What one start uploads comes from one run, signed by the CA beside it, exactly when its directory held no leaf file but admin.conf. |
| CertRuns.CrashTearsFirstSecret | pkg/certs/ensure.go:154-197 | A crash between generating and creating makes the restart upload leaves of two runs. |
| CertRuns.FailedFetchReplacesAdmin | pkg/certs/ensure.go:120-157 | A request that fails though the Secret exists makes a running replica write its own admin.conf, which a crash leaves behind; hence agreement is about the latest call. |
| CertRenewal.ReturnsAtOnceIff | pkg/certs/ensure.go:121-126 | After writing the Secret's files EnsureCerts returns at once if and only if no leaf certificate is missing or stale, with the Secret unchanged and its bytes in the directory. |
| CertRenewal.RenewalRenews | pkg/certs/ensure.go:125-150 | Otherwise, undisturbed, every leaf entry becomes one that the Secret's own CA has just signed, the CA and service-account entries stay, and it returns with the Secret's bytes in the directory. |
| CertRenewal.StaleIsNotCurrent | pkg/certs/ensure.go:125-150 | In every run a replica that found a stale leaf does not count as up to date before its own patch or the return of another call. |
| CertRenewal.LoserAdopts | pkg/certs/ensure.go:196-217 | A start whose Create finds a Secret returns with that Secret's bytes. |
| CertRenewal.CrashLeavesSome | pkg/certs/ensure.go:357-396 | A crash in a file step leaves the finished files as the whole step would have and all others as they were. |
| K3sMigration.DataDir.RenameIfExists | pkg/k8s/migrate.go:211-217 | Moves the file with its contents, does nothing when there is none, and leaves the directory alone when the rename fails. |
| K3sMigration.DataDir.FillData | pkg/k8s/migrate.go:88-112 | In any order the two loops set exactly the k3s entries, each from its own file, and give up exactly when a file is missing. |
| K3sMigration.SecretStep | pkg/k8s/migrate.go:51-142 | Every step of every replica keeps the invariant that at most one update was made, only by a replica that read the current version unmigrated. |
| K3sMigration.MigratesSecretOnce | pkg/k8s/migrate.go:75-142 | Across any crashes, restarts, races and foreign writes the migration writes the Secret at most once, and never when or after the annotation is set, be it from the start; only a replica whose own update succeeded deletes its k3s directory, and at most one does. |
| K3sMigration.WinningUpdateMerges | pkg/k8s/migrate.go:88-120 | The update that wins overwrites exactly the 15 k3s entries with the replica's own files, kubeconfigs inlined, and keeps what the Secret held at that moment for all others. |
| K3sRuns.MigratesIff | pkg/k8s/migrate.go:51-142 | Undisturbed, the call migrates if and only if the TLS directory exists, private nodes are off, the Secret exists unmigrated and all 15 files are there; otherwise Secret and directory stay but for the database move, and without directory or with private nodes nothing happens at all. |
| K3sRuns.MigratedState | pkg/k8s/migrate.go:58-142 | Afterwards the Secret is marked and holds the replica's own files beside what it held otherwise, the k3s directory is gone, and an embedded database is at its new place. |
| K3sRuns.ConflictStartsOver | pkg/k8s/migrate.go:121-134 | An update that meets a newer Secret changes nothing and the call starts over. |
| K3sRuns.NothingToMigrate | pkg/k8s/migrate.go:51-56 | In every run a replica without the TLS directory, or with private nodes, keeps its files, and none of its steps changes the Secret. |
| K3sMigration.DatabaseIsNeverLost | pkg/k8s/migrate.go:58-73 | With an embedded store each of the three database files is, at every moment of every run, at exactly one of its two paths with its original contents. |
| ConfigDiff.PruneIdempotent | config/diff.go:102-130 | prune of a pruned tree changes nothing. |
| ConfigDiff.VanishesIffBarren | config/diff.go:109-126 | prune turns a value into nil exactly when it is an object that holds nothing but such objects. |
| ConfigDiff.ComputePrune | config/diff.go:102-130 | The recursion with its loops computes Prune and terminates on the tree. |
| ConfigDiff.ComputeDiff | config/diff.go:43-100 | The recursion with its two loops, in any key order, computes Diff and terminates on the tree. |
| ConfigDiff.MergeMaps | pkg/cli/create_platform.go:603-616 | The overlay's meaning: objects merge recursively, everything else is replaced. |
| OverlayLaw.PruneKeepsMeaning | config/diff.go:102-130 | prune keeps the meaning of what it keeps and removes only what means nothing. |
| OverlayLaw.PruneShape | config/diff.go:102-130 | prune keeps the length of a list, turns exactly its barren items and nulls into null and keeps the meaning of the others; an object loses exactly its barren fields; anything else stays. |
| OverlayLaw.DiffNilIff | config/diff.go:43-100 | Between different objects the diff is nil exactly when every change leaves no trace: a dropped non-scalar, or a barren object that is new or replaces a non-object. |
| OverlayLaw.OverlayRestoresIff | config/diff.go:16-130 | Overlaying the diff on the old tree means the new tree if and only if every key passes a test a caller can make on the two trees beforehand. |
| OverlayLaw.PlainDiffNilIffEqual | config/diff.go:43-100 | When no list, map or null is dropped, no map becomes a non-map or the reverse and no prunable map is introduced, the diff is nil exactly for equal trees. |
| OverlayLaw.PlainIsFaithful | config/diff.go:16-130 | Under the same condition the overlay always restores the new tree. |
| OverlayLaw.DroppedListLosesItsParent | config/diff.go:78-96 | The law fails in general: dropping a list beside an unchanged setting turns their parent into null. |
| JsonPatch.DecodeUndoesEscape | pkg/cli/cleanup_namespaces.go:260-267 | Decoding by section 4 of RFC 6901 undoes the escaper for every string, and an escaped key is one path token. |
| JsonPatch.PathTokens | pkg/cli/cleanup_namespaces.go:264-277 | The emitted path names exactly the metadata section and the original key. |
| Cleanup.ExecuteRemoveKey | pkg/cli/cleanup_namespaces.go:264-277 | On any JSON document whatever, one emitted operation removes exactly that key, or fails exactly when it is missing. |
| Cleanup.RemoveLabels | pkg/cli/cleanup_namespaces.go:263-269 | The label loop, in any order, builds a patch that on every document removes exactly the prefixed labels or fails because one is missing. |
| Cleanup.RemoveAnnotations | pkg/cli/cleanup_namespaces.go:271-277 | The annotation loop extends it by exactly the prefixed annotations. |
| Cleanup.Resources.CleanupObjectMetadata | pkg/cli/cleanup_namespaces.go:253-301 | The stored object, even if changed since it was listed, loses exactly the listed prefixed keys or stays untouched; a vanished object is no error; without such keys nothing is sent. |
| Cleanup.Resources.CleanupObjects | pkg/cli/cleanup_namespaces.go:224-250 | A failing object is reported and does not keep any other object from being cleaned. |
| Cleanup.CleanedExactly | pkg/cli/cleanup_namespaces.go:253-301 | Cleaning removes exactly the keys with the prefix from labels and annotations that hold strings and nulls only, and changes nothing else in the document. |
| Cleanup.CleanIff | pkg/cli/cleanup_namespaces.go:279-282 | No patch is sent exactly when no readable label or annotation has the prefix. |
| Cleanup.PassIsExact | pkg/cli/cleanup_namespaces.go:224-250 | After a pass each object is cleaned, or reported and unchanged exactly if it needed cleaning and was denied. |
| Cleanup.CleanedIsClean | pkg/cli/cleanup_namespaces.go:279-282 | A second pass finds nothing to remove. |
| ImageRef.ToString | config/config.go:1996-2015 | Printing, by appending, for every image and for nil. |
| ImageRef.ParseImageRef | config/default_extra_values.go:89-114 | Parsing writes exactly the three fields that the reference stands for. |
| ImageRef.ParsesParts | config/default_extra_values.go:89-114 | A reference with a registry is read by its parts, without the library prefix of the repository. |
| ImageRef.PrintsParts | config/config.go:1996-2015 | A reference is printed by its parts, with library/ before a one-segment repository if there is a registry. |
| ImageRef.RoundTripIff | config/default_extra_values.go:89-114 | Parsing a printed image gives it back if and only if it is canonical, a condition on its three fields. |
| ImageRef.PrintInjective | config/config.go:1996-2015 | Two canonical images that print alike are equal, in spite of the inserted and trimmed library prefix. |
| ImageRef.PlainRegistryIsLost | config/default_extra_values.go:108-112 | A registry without '.' or ':' does not survive. |
| FlagTokens.ScanTakesOneFlag | config/legacyconfig/migrate.go:1044-1065 | What is returned, written in one of the three ways and followed by the rest, is the argument list, so the list shrinks; it ends or fails exactly on no argument or on one that is no flag. |
| FlagTokens.TokenizeUndoesRenderIff | config/legacyconfig/migrate.go:663-682 | Flags rendered in any mix of the three styles are read back in order if and only if every flag is non-empty without '=' and no spaced value looks like a flag. |
| KubeConfigFlags.NewConfig.MigrateExportKubeConfigFlags | config/legacyconfig/migrate.go:949-1010 | Fails exactly when a given flag is empty, having handled those before it; otherwise the new export settings are those the flags ask for, with context and server copied into the first additional secret only if it is set. |
| KubeConfigFlags.NewConfig.ConvertSyncerExtraArgs | config/legacyconfig/migrate.go:651-691 | The loop computes the meaning of the argument list: other flags applied in order, the last value of each export flag migrated at the end; after a failure, the configuration is that of the flags taken in so far. |
| KubeConfigFlags.UsedIsLast | config/legacyconfig/migrate.go:671-676 | The value collected for an export flag is its last one among the tokens. |
| KubeConfigFlags.ConvertSucceedsIff | config/legacyconfig/migrate.go:651-691 | Conversion succeeds exactly when the other flags migrate and no export flag ends up empty. |
| KubeConfigFlags.SettingsSurviveIff | pkg/config/config.go:141-151 | Through migration and rendering, wherever they stand and however they are written, the four settings come back unchanged if and only if a secret flag is given or neither context nor server is. |
| KubeConfigFlags.ContextAloneIsLost | pkg/config/config.go:141-151 | A context flag alone reaches the new configuration but no legacy option. |
| NodeSelector.MergeIntoMap | config/legacyconfig/migrate.go:1027-1042 | The loop adds the parsed parts in order, skipping those without '='. |
| NodeSelector.Render | pkg/config/config.go:82-90 | The selector is the labels joined in some order of the map, and empty when node sync is off. |
| NodeSelector.ReadingAddsLabels | config/legacyconfig/migrate.go:822-828 | Reading a rendered selector into any map adds exactly the labels, when they are plain. |
| NodeSelector.RoundTripIff | pkg/config/config.go:82-90 | Reading a rendered selector gives back the labels if and only if keys hold no '=' or ',' and no leading space and values no ',' and no trailing space, in every order. |
| HelmReleases.List | pkg/helm/secrets.go:239-266 | The nested loops compute the fold of Insert over the eligible releases. |
| HelmReleases.ListIsSoundAndDominates | pkg/helm/secrets.go:239-266 | Every listed release is an eligible one that arrived, and every eligible one has a listed release of its name that is at least as new, for every arrival order. |
| HelmReleases.Get | pkg/helm/secrets.go:271-289 | Returns a release that is neither superseded nor uninstalled and has metadata, of maximal version among all such Secrets, and not found exactly when there is none. |
| HelmReleases.ListIsUniqueIff | pkg/helm/secrets.go:254-265 | A name is listed once if and only if its eligible versions arrive in increasing order. |
| TailIPs.OrBits | pkg/cli/create_docker.go:1227-1228 | The or of two numbers, bit by bit. |
| TailIPs.BroadcastIsOr | pkg/cli/create_docker.go:1224-1228 | The bitwise or of the network address and the inverted mask is the last address of the subnet. |
| TailIPs.FindTailIPs | pkg/cli/create_docker.go:1224-1248 | In 32-bit arithmetic the loop returns consecutive descending addresses below the broadcast address and above the network address, and fewer than asked only when the next one is at or below the network address. |
| TailIPs.TailIsInsideIff | pkg/cli/create_docker.go:1231-1246 | They are distinct and lie strictly between network and broadcast for every subnet and size, except exactly 0.0.0.0/32 with a positive size, where the subtraction wraps. |
| DockerNodes.NamesAreInjective | pkg/cli/create_docker.go:1433-1435 | The worker prefix of one dot-free cluster never starts a worker name of another. |
| DockerNodes.NamesCollideIff | pkg/cli/create_docker.go:1433-1439 | In general two clusters' names can collide exactly when one name is the other up to a dot. |
| DockerNodes.VolumesAreInjective | pkg/cli/create_docker.go:1437-1439 | A volume name determines node and volume, even for node names with dots. |
| DockerNodes.Docker.Find | pkg/cli/list_docker.go:82-133 | Fails, or finds exactly the nodes whose container has the prefix and can be inspected. |
| DockerNodes.Docker.EnsureVClusterNodes | pkg/cli/create_docker.go:662-720 | Succeeds exactly when every command that is needed can succeed: containers and volumes are then the reconciled sets; whether it succeeds or not, nothing outside the cluster's prefix changes. |
| DockerNodes.FeasibleWithoutFailures | pkg/cli/create_docker.go:662-720 | If no command fails by itself, valid node names suffice, as long as nodes that go have their volumes and no uninspectable container has the name of a new node. |
| DockerNodes.WorkersMatchConfiguration | pkg/cli/create_docker.go:668-717 | After success the workers are exactly the configured nodes (beside any that could not be inspected), a removed node has lost its volumes, a new one has them all and a kept one what it had. |
| DockerNodes.OtherClustersUntouched | pkg/cli/create_docker.go:662-720 | No worker or volume of another dot-free cluster is touched, whether the call succeeds or fails. |
| DockerNodes.ValidateConfig | pkg/cli/create_docker.go:1053-1070 | Accepts exactly non-empty, pairwise distinct node names different from the cluster's. |
| KubeContexts.KubeConfig.DeleteContext | pkg/cli/delete_helm.go:323-378 | Removes the context and exactly those of its two entries that no remaining context uses, and moves the current context only when it was the deleted one. |
| KubeContexts.DeletionsRemoveExactlyUnused | pkg/cli/delete_helm.go:334-363 | After any sequence of calls an entry of the first state is gone exactly when a deleted context used it and no remaining one does; what stays is unchanged, and closed stays closed. |
| KubeContexts.DeletionsRemoveNamed | pkg/cli/delete_helm.go:323-334 | After any sequence of calls exactly the named contexts are gone. |
| KubeContexts.CurrentMovesOnlyWhenDeleted | pkg/cli/delete_helm.go:365-378 | The current context moves only when it is deleted, and then to the fallback if one is given. |
| KubeContexts.CurrentStaysLive | pkg/cli/delete_helm.go:365-378 | Over any sequence of calls without a fallback the current context names a remaining context, or is empty because none is left. |
| Upgrades.HistoryIsOneChange | config/config.go:923-998 | Any accepted sequence of upgrades amounts to one acceptable upgrade, so nothing is reachable in steps that is refused at once. |
| Upgrades.SettingsNeverChange | config/config.go:965-998 | Over any accepted sequence all settings of namespace sync and of the VPN stay what they were. |
| Upgrades.StoreBySwitches | config/config.go:875-892 | Which store is used, by the enabled switches. |
| Upgrades.SwitchesOverHistory | config/config.go:938-963 | By the switches, over any accepted sequence: embedded etcd stays, an external database alone stays alone, nothing moves to external etcd, and only without etcd is an external database begun. |
| Upgrades.StoreChangesAtMostTwice | config/config.go:938-963 | Over any accepted sequence the backing store changes at most twice and never returns to a store it left. |
| Upgrades.AbsorbingIff | config/config.go:938-963 | A store is never left exactly when it is embedded etcd or an external database. |
| Upgrades.ReachableIff | config/config.go:938-963 | By any number of accepted upgrades exactly the listed stores are reachable from each other, both ways proved. |
| Upgrades.EmbeddedDatabaseTestsAgreeIff | config/config.go:877-896 | The store type and the separate embedded-database test agree except exactly when both databases and no etcd are enabled. |
| Upgrades.TwoChangesHappen | config/config.go:938-963 | The bound of two is reached. |
| Patches.ValidatePatches | pkg/config/validation.go:273-302 | Accepts exactly when in each list every patch uses one mechanism and paths are pairwise distinct. |
| Validation.VirtualClusterConfig.ValidateConfigAndSetDefaults | pkg/config/validation.go:41-228 | Accepts exactly when all checks hold once the early defaults are in, at which point exactly the defaults are filled in; a refused run stops after a known part of them. |
| Validation.RunningAgainChangesNothing | pkg/config/validation.go:41-228 | Wherever a run stopped, another run reaches the same verdict and the same defaults; an accepted configuration is a fixed point. |
| Validation.PassesBySetting | pkg/config/validation.go:78-221 | Of the fields that defaulting may change, the checks depend on the switch for storage classes only. |
| Validation.DefaultsFillOnlyUnset | pkg/config/validation.go:55-75 | Defaulting never overrides a value that was set. |
| Validation.DefaultsDecide | pkg/config/validation.go:55-75 | A switch on auto becomes true, a flag is raised and the service account is named exactly when scheduling, namespace sync, shared nodes or an empty name ask for it; nothing else changes. |
| Validation.AcceptedIsConsistent | pkg/config/validation.go:83-125 | In an accepted configuration storage classes, with the defaults in, are not synced both ways; no custom resource is synced both ways, or to or from the host beside an integration that syncs it in that direction, or shares a group with a proxied one. |
| Validation.AcceptedPrivateNodes | pkg/config/validation.go:727-821 | Accepted private nodes exclude namespace sync and every integration and have pool names that are distinct everywhere; an endpoint or the snapshot controller implies private nodes. |
| Validation.ModesStayApart | config/config.go:965-985 | Over any history of accepted upgrades, a vCluster that was ever valid with namespace sync is never valid with private nodes or what needs them, before or after; its mappings stay the same and never translate the control plane's namespace. |
| Validation.AcceptedSparesControlPlane | pkg/config/validation.go:169-173 | With accepted namespace sync no mapping translates the namespace that the control plane runs in. |
| Validation.AcceptedFromHostResources | pkg/config/validation.go:93-109 | An accepted custom resource from the host has mappings exactly when it is namespaced, and one synced to the host is never cluster-scoped. |
| NamespaceSync.ValidateNamespaceSync | pkg/util/namespaces/validation.go:12-66 | Accepts exactly non-empty mappings whose entries are valid names or patterns on both sides alike, spare the control plane, and have distinct host sides. |
| NamespaceSync.ValidateEntry | pkg/util/namespaces/validation.go:39-63 | One mapping: a pattern maps to a pattern and a name to a name, both sides are valid with the placeholder resolved, and the host side does not cover the control plane. |
| NamespaceSync.TranslateHostNamespace | pkg/util/namespaces/util.go:47-74 | For any iteration order: an exact mapping of the name if there is one, else a matching pattern, else none. |
| NamespaceSync.ControlPlaneIsNeverSynced | pkg/util/namespaces/validation.go:186-200 | Under accepted mappings neither an exact mapping nor a pattern translates the control plane's namespace. |
| NamespaceSync.AnswersAreUniqueIff | pkg/util/namespaces/util.go:47-74 | For accepted mappings the translation of every host namespace is independent of the iteration order if and only if no two exact mappings with different virtual names resolve to one host name and, wherever the literal of one host pattern extends that of another, its virtual literal extends the other's by the same text. |
| NamespaceSync.PatternsDisagree | pkg/util/namespaces/util.go:61-71 | Patterns that break the condition give two answers to a name that is at most 32 characters longer than there are host names of exact mappings. |
| NamespaceSync.OverlapIsAccepted | pkg/util/namespaces/validation.go:34-37 | Overlapping exact mappings pass the duplicate test, which compares names before the placeholder is replaced. |
| NamespaceSync.DivergenceIsAccepted | pkg/util/namespaces/validation.go:114-150 | Patterns x-* for a-* and y-* for a-b-* are accepted, and the host namespace a-b-z is x-b-z or y-z inside. |
| DnsMappings.ValidateTarget | pkg/config/coredns_plugin_validation.go:63-103 | Accepts exactly one kind of target, in its format. |
| DnsMappings.ValidateMapping | pkg/config/coredns_plugin_validation.go:11-58 | Accepts exactly one kind of source, in its format, with a target that fits. |
| DnsMappings.KindsFit | pkg/config/coredns_plugin_validation.go:10-61 | An accepted mapping takes a namespace to a namespace and nothing else, a wildcard hostname to a wildcard hostname, and nothing else to a namespace. |
| SyncMappings.ValidateSwitch | pkg/config/validation.go:498-527 | Accepts a disabled switch, or non-empty mappings all of whose entries pass. |
| SyncMappings.PairFormIff | pkg/config/validation.go:498-554 | A mapping with a non-empty host side is accepted if and only if both sides are namespace/object references with valid or omitted parts, the virtual namespace is given, and all objects map to all objects. |
| SyncMappings.HostNamespaceFormIff | pkg/config/validation.go:505-516 | The empty host side is accepted exactly with a valid virtual namespace, alone or with any valid object; the announced restriction to a namespace or all its objects looks at a key that is never accepted. |
| SyncMappings.HostNamespaceToOneObject | pkg/config/validation.go:512-514 | An input that the announced restriction should refuse and that is accepted. |
| SyncMappings.ValidateResource | pkg/config/validation.go:556-581 | Accepts exactly known scopes, with mappings if and only if namespaced, valid patches and valid entries. |
| ConfigChecks.ValidateHooks | pkg/config/validation.go:347-423 | Accepts exactly webhooks with a service or a URL, each complete and valid, and a readable CA bundle if any. |
| ConfigChecks.ValidateCheck | pkg/config/validation.go:425-496 | Accepts exactly deny rules with valid namespaces, a lone wildcard or listed values, and a known scope. |
| ConfigChecks.ValidateExport | pkg/config/validation.go:594-621 | Accepts exactly one form of secrets, each with a name or namespace, and an empty or http(s) server URL. |
| ConfigChecks.ConvertedExportIsValidIff | config/legacyconfig/migrate.go:651-691 | From the legacy command line to validation: the export settings that any well-formed flags are converted to, starting from valid secrets, are accepted exactly when the last server given, or else the one set before, is acceptable and no secret flag is given beside the deprecated form. |
| ConfigChecks.ValidateEnabledIntegrations | pkg/config/validation.go:623-721 | Accepts exactly when no enabled custom resource is one that an enabled integration syncs itself. |
| NodePools.ValidateRequirement | pkg/config/validation.go:830-866 | Accepts exactly requirements with a property and a known operator, with a value unless the operator is Exists or DoesNotExist, and never both forms. |
| NodePools.ValidateNodePools | pkg/config/validation.go:776-818 | Accepts exactly when every provider and pool is valid, providers are distinct and pool names are distinct across all providers, static and dynamic. |
| NodePools.DistinctIsOwnNames | pkg/config/validation.go:776-818 | Distinct names mean, pool by pool: no two pools of a provider and no pools of two providers share a name, static or dynamic. |
| CustomResources.ExtractGroupOf | pkg/config/validation.go:914-919 | The group of resource.group, with or without a version, is the group. |
| CustomResources.NoConflictsIff | pkg/config/validation.go:878-912 | The check on key and group sets accepts exactly when no enabled key is synced both ways and no synced and proxied enabled keys share a group. |

## Left out

- EtcdStore: compaction, leases and watches; a compacted revision shows up as a failing request of the stream.
- EtcdList.ListStream: the channel is the sequence of emissions; its buffer and a consumer that stops reading are not modelled.
- EtcdClient.Etcd.Update: the read in the Else branch is dropped, since its result is never used.
- CertWorld: the write of one file is one step; the source truncates a file before it writes it, and a crash in between, which leaves an empty file, is not modelled.
- CertWorld: CA rotation (`withCA`), under which live replicas legitimately disagree until they restart, deletion of the Secret, and the standalone branch without a Secret.
- CertFiles: key material, PEM encoding and kubeadm; generation fills missing files with fresh contents signed by the CA on disk and always rewrites admin.conf.
- CertExpiry: the clock; whether a certificate counts as expired is part of the input. The variant that reads the directory in standalone mode and the warning about CA certificates are not modelled.
- K3sMigration: `MigrateK3sToK8sStateless`, which deletes pods and config maps, and deletion of the Secret. A Secret without any data, on whose nil map the source would fail, counts as one with an empty map.
- ConfigDiff.ComputePrune: works on values; that the source edits its trees in place, and so may alias parts of its input, is not captured.
- ConfigDiff: conversion of the configuration to and from YAML and JSON.
- Cleanup: listing and discovery of resource types, the choice of namespaces and the deletion of managed namespaces that were not imported.
- JsonPatch: the five other operations of RFC 6902; removing the whole document is treated as an error.
- ImageRef: the YAML decoding of images.
- KubeConfigFlags: all other legacy flags are one parameter, a function on the rest of the configuration.
- KubeConfigFlags: the insecure switch and the service account of exported kubeconfigs, which no legacy flag sets.
- NodeSelector: the flag itself refuses an empty value before the selector is read.
- HelmReleases: decoding of release Secrets and the label selector of the request.
- TailIPs.FindTailIPs: addresses are numbers; their dotted form and the inspection of the Docker network are not modelled.
- DockerNodes: container options, images and ports; which containers a failing start leaves behind is a parameter.
- KubeContexts.KubeConfig.DeleteContext: requires that the context to delete is not nil, since the source dereferences it; writing the file is not modelled.
- Upgrades: all configuration fields that upgrades are not checked on.
- Validation: error messages, the hook of the commercial edition, which accepts everything by default, and the YAML form in which webhooks are decoded. Names, URLs, addresses, certificates, label values and selectors are judged by parameters.
- NamespaceSync: that the library's test for name prefixes refuses '*' is a hypothesis where patterns are concerned.
- The remaining commands, controllers, syncers and Helm charts of the repository, which are calls into libraries, would only add easy members.
