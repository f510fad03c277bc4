// Writes through pkg/etcd/client.go: compare-and-swap on a key's mod revision.
module EtcdCas {
  import opened Common
  import opened Keys
  import opened EtcdStore

  predicate Touches(o: Outcome, k: Key) {
    match o
    case Written(key, _) => key == k
    case Erased(keys, _) => k in keys
    case NoEffect => false
  }

  predicate Writes(o: Outcome, k: Key, rev: nat) {
    o == Written(k, rev)
  }

  predicate Untouched(tr: seq<Outcome>, lo: int, hi: int, k: Key)
    requires -1 <= lo && hi <= |tr|
  {
    forall m :: lo < m < hi ==> !Touches(tr[m], k)
  }

  // What a client that sees only the outcomes knows of k: the revision of the last write
  // that is not undone by a later deletion, else 0.
  function LastWrite(tr: seq<Outcome>, k: Key): nat {
    if tr == [] then 0
    else match tr[|tr| - 1]
      case Written(key, rev) => if key == k then rev else LastWrite(tr[..|tr| - 1], k)
      case Erased(keys, _) => if k in keys then 0 else LastWrite(tr[..|tr| - 1], k)
      case NoEffect => LastWrite(tr[..|tr| - 1], k)
  }

  /** The server's mod revision is a function of the outcomes alone. */
  lemma {:induction false} ModRevisionIsLastWrite(steps: seq<Step>, k: Key)
    ensures ModRevision(Run(NewServer, steps), k) == LastWrite(Trace(NewServer, steps), k)
  {
    if steps != [] {
      var before := steps[..|steps| - 1];
      ModRevisionIsLastWrite(before, k);
      var tr := Trace(NewServer, steps);
      assert tr[..|tr| - 1] == Trace(NewServer, before);
    }
  }

  // One step, key by key.
  lemma {:induction false} ExecAt(s: Server, step: Step, k: Key)
    requires Valid(s)
    ensures var o := Effect(s, step);
            && (o.Written? ==> step.Cas? && step.key == o.key)
            && Lookup(Exec(s, step), k) ==
                 if !Touches(o, k) then Lookup(s, k) else if o.Written? then Some(Stored(step.data, o.rev)) else None
  {
  }

  lemma {:induction false} ErasesExactly(s: Server, step: Step, k: Key)
    requires Valid(s) && !step.Cas?
    ensures Touches(Effect(s, step), k) <==>
              Lookup(s, k).Some? && if step.Remove? then k == step.key else step.prefix <= k
  {
    assert k in Victims(s, step) ==> Victims(s, step) != {};
  }

  // Step j wrote k, and nothing has touched k since.
  predicate Stands(steps: seq<Step>, tr: seq<Outcome>, j: int, k: Key)
    requires |tr| == |steps|
  {
    0 <= j < |tr| && steps[j].Cas? && steps[j].key == k && Touches(tr[j], k) && Untouched(tr, j, |tr|, k)
  }

  lemma {:induction false} StandsInit(steps: seq<Step>, tr: seq<Outcome>, j: int, k: Key)
    requires |tr| == |steps| > 0 && !Touches(tr[|tr| - 1], k)
    ensures Stands(steps, tr, j, k) <==> Stands(steps[..|steps| - 1], tr[..|tr| - 1], j, k)
  {
    if 0 <= j < |tr| - 1 {
      UntouchedInit(tr, j, k);
    }
  }

  // The entry is that of the write that stands, if one does.
  ghost predicate Holds(steps: seq<Step>, tr: seq<Outcome>, k: Key, now: Option<Stored>)
    requires |tr| == |steps|
  {
    && (now.Some? <==> exists j :: Stands(steps, tr, j, k))
    && forall j :: Stands(steps, tr, j, k) ==> tr[j].Written? && now == Some(Stored(steps[j].data, tr[j].rev))
  }

  lemma {:induction false} HoldsMore(steps: seq<Step>, tr: seq<Outcome>, k: Key, was: Option<Stored>,
                                     now: Option<Stored>)
    requires |tr| == |steps| > 0 && Holds(steps[..|steps| - 1], tr[..|tr| - 1], k, was)
    requires var step, o := steps[|steps| - 1], tr[|tr| - 1];
             && (o.Written? ==> step.Cas? && step.key == o.key) && (step.Cas? ==> !o.Erased?)
             && now == if !Touches(o, k) then was else if o.Written? then Some(Stored(step.data, o.rev)) else None
    ensures Holds(steps, tr, k, now)
  {
    var n := |steps| - 1;
    if Touches(tr[n], k) {
      assert forall j :: Stands(steps, tr, j, k) ==> j == n;
      assert Untouched(tr, n, |tr|, k);
      assert Stands(steps, tr, n, k) <==> tr[n].Written?;
    } else {
      forall j ensures Stands(steps, tr, j, k) <==> Stands(steps[..n], tr[..n], j, k) { StandsInit(steps, tr, j, k); }
    }
  }

  /** In every run a key is stored exactly when some conditional write to it committed and nothing touched the key
      since; what is stored are the bytes and the revision of that write. */
  lemma {:induction false} StoredIsLastCommitted(steps: seq<Step>, k: Key)
    ensures Holds(steps, Trace(NewServer, steps), k, Lookup(Run(NewServer, steps), k))
  {
    if steps == [] {
      assert forall j :: !Stands(steps, Trace(NewServer, steps), j, k);
    } else {
      StoredIsLastCommitted(steps[..|steps| - 1], k);
      HoldsStep(steps, k, Run(NewServer, steps[..|steps| - 1]));
    }
  }

  lemma {:induction false} HoldsStep(steps: seq<Step>, k: Key, s: Server)
    requires steps != [] && s == Run(NewServer, steps[..|steps| - 1])
    requires Holds(steps[..|steps| - 1], Trace(NewServer, steps[..|steps| - 1]), k, Lookup(s, k))
    ensures Holds(steps, Trace(NewServer, steps), k, Lookup(Exec(s, steps[|steps| - 1]), k))
  {
    var tr, last := Trace(NewServer, steps), steps[|steps| - 1];
    assert tr[..|tr| - 1] == Trace(NewServer, steps[..|steps| - 1]) && tr[|tr| - 1] == Effect(s, last);
    ExecAt(s, last, k);
    HoldsMore(steps, tr, k, Lookup(s, k), Lookup(Exec(s, last), k));
  }

  /** A deletion of one key or of a prefix takes away exactly the stored keys that it names. */
  lemma {:induction false} DeletionErasesExactly(steps: seq<Step>, i: nat, k: Key)
    requires i < |steps| && !steps[i].Cas?
    ensures Touches(Trace(NewServer, steps)[i], k) <==>
              && Lookup(Run(NewServer, steps[..i]), k).Some?
              && if steps[i].Remove? then k == steps[i].key else steps[i].prefix <= k
  {
    TraceAt(NewServer, steps, i);
    ErasesExactly(Run(NewServer, steps[..i]), steps[i], k);
  }

  // LastWrite, said by positions instead of by recursion.
  lemma {:induction false} LastWriteMeans(tr: seq<Outcome>, k: Key, rev: nat)
    requires forall i, key, r :: 0 <= i < |tr| && tr[i] == Written(key, r) ==> r > 0
    ensures rev > 0 ==> (LastWrite(tr, k) == rev <==>
                         exists j :: 0 <= j < |tr| && Writes(tr[j], k, rev) && Untouched(tr, j, |tr|, k))
    ensures LastWrite(tr, k) == 0 <==>
            Untouched(tr, -1, |tr|, k) ||
            exists j :: 0 <= j < |tr| && Touches(tr[j], k) && tr[j].Erased? && Untouched(tr, j, |tr|, k)
  {
    if tr != [] {
      var n := |tr| - 1;
      var before := tr[..n];
      LastWriteMeans(before, k, rev);
      assert forall i :: 0 <= i < n ==> before[i] == tr[i];
      if Touches(tr[n], k) {
        assert Untouched(tr, n, |tr|, k);
        assert !Untouched(tr, -1, |tr|, k);
        assert forall j :: 0 <= j < n ==> !Untouched(tr, j, |tr|, k);
      } else {
        assert LastWrite(tr, k) == LastWrite(before, k);
        forall j | -1 <= j < n ensures Untouched(tr, j, |tr|, k) <==> Untouched(before, j, n, k) {
          UntouchedInit(tr, j, k);
        }
      }
    }
  }

  lemma {:induction false} UntouchedInit(tr: seq<Outcome>, j: int, k: Key)
    requires tr != [] && -1 <= j < |tr| - 1 && !Touches(tr[|tr| - 1], k)
    ensures Untouched(tr, j, |tr|, k) <==> Untouched(tr[..|tr| - 1], j, |tr| - 1, k)
  {
    var before := tr[..|tr| - 1];
    assert forall m :: 0 <= m < |before| ==> before[m] == tr[m];
  }

  lemma {:induction false} WrittenRevision(steps: seq<Step>, i: nat)
    requires i < |steps|
    ensures var o := Trace(NewServer, steps)[i];
            o.Written? ==> o.rev == |Run(NewServer, steps[..i]).log| && o.rev >= 2
  {
    TraceAt(NewServer, steps, i);
  }

  lemma {:induction false} CommitGrowsLog(steps: seq<Step>, i: nat)
    requires i < |steps| && Trace(NewServer, steps)[i].Written?
    ensures |Run(NewServer, steps[..i + 1]).log| == |Run(NewServer, steps[..i]).log| + 1
  {
    TraceAt(NewServer, steps, i);
    assert steps[..i + 1][..i] == steps[..i];
  }

  lemma {:induction false} LogLength(steps: seq<Step>, i: nat, j: nat)
    requires i <= j <= |steps|
    ensures |Run(NewServer, steps[..i]).log| <= |Run(NewServer, steps[..j]).log|
  {
    var later := steps[..j];
    RunGrows(NewServer, later, i);
    assert later[..i] == steps[..i];
  }

  /** Revisions handed out by successful writes strictly increase over the run. */
  lemma {:induction false} RevisionsIncrease(steps: seq<Step>, i: nat, j: nat)
    requires i < j < |steps|
    requires Trace(NewServer, steps)[i].Written? && Trace(NewServer, steps)[j].Written?
    ensures Trace(NewServer, steps)[i].rev < Trace(NewServer, steps)[j].rev
  {
    WrittenRevision(steps, i);
    WrittenRevision(steps, j);
    CommitGrowsLog(steps, i);
    LogLength(steps, i + 1, j);
  }

  /** The chain: in every run, a conditional write naming a revision commits exactly when that revision
      was handed out by a write to the key and nothing touched the key since; one that expects absence
      commits exactly when the key was never touched, or was last touched by a deletion. */
  lemma {:induction false} CasCommitsIff(steps: seq<Step>, i: nat)
    requires i < |steps| && steps[i].Cas? && steps[i].key != []
    ensures var tr, k, e := Trace(NewServer, steps), steps[i].key, steps[i].expected;
            tr[i].Written? <==>
            if e > 0 then exists j :: 0 <= j < i && Writes(tr[j], k, e) && Untouched(tr, j, i, k)
            else Untouched(tr, -1, i, k) ||
                 exists j :: 0 <= j < i && Touches(tr[j], k) && tr[j].Erased? && Untouched(tr, j, i, k)
  {
    var tr, k, e := Trace(NewServer, steps), steps[i].key, steps[i].expected;
    TraceAt(NewServer, steps, i);
    ModRevisionIsLastWrite(steps[..i], k);
    forall m | 0 <= m < i ensures tr[..i][m] == tr[m] && (tr[m].Written? ==> tr[m].rev > 0) {
      WrittenRevision(steps, m);
    }
    LastWriteMeans(tr[..i], k, e);
    assert forall j :: -1 <= j < i ==> (Untouched(tr[..i], j, i, k) <==> Untouched(tr, j, i, k));
  }

  lemma {:induction false} CommitTouches(steps: seq<Step>, i: nat)
    requires i < |steps| && steps[i].Cas? && Trace(NewServer, steps)[i].Written?
    ensures steps[i].key != [] && Touches(Trace(NewServer, steps)[i], steps[i].key)
  {
    TraceAt(NewServer, steps, i);
  }

  lemma {:induction false} NamedRevision(steps: seq<Step>, i: nat)
    requires i < |steps| && steps[i].Cas? && Trace(NewServer, steps)[i].Written? && steps[i].expected > 0
    ensures var tr, k, e := Trace(NewServer, steps), steps[i].key, steps[i].expected;
            exists j :: 0 <= j < i && Writes(tr[j], k, e) && Untouched(tr, j, i, k)
  {
    CommitTouches(steps, i);
    CasCommitsIff(steps, i);
  }

  /** No lost update: two conditional writes that name the same existing revision never both commit,
      and two that expect absence both commit only around a deletion. */
  lemma {:induction false} AtMostOneWinner(steps: seq<Step>, i: nat, j: nat)
    requires i < j < |steps| && steps[i].Cas? && steps[j].Cas?
    requires steps[i].key == steps[j].key && steps[i].expected == steps[j].expected
    requires Trace(NewServer, steps)[i].Written? && Trace(NewServer, steps)[j].Written?
    ensures steps[i].expected == 0
    ensures var tr := Trace(NewServer, steps); exists m :: i < m < j && Touches(tr[m], steps[i].key) && tr[m].Erased?
  {
    var tr, k, e := Trace(NewServer, steps), steps[i].key, steps[i].expected;
    CommitTouches(steps, i);
    if e > 0 {
      NamedRevision(steps, i);
      NamedRevision(steps, j);
      var a :| 0 <= a < i && Writes(tr[a], k, e) && Untouched(tr, a, i, k);
      var b :| 0 <= b < j && Writes(tr[b], k, e) && Untouched(tr, b, j, k);
      assert a < i <= b;
      RevisionsIncrease(steps, a, b);
    } else {
      CommitTouches(steps, j);
      CasCommitsIff(steps, j);
      assert !Untouched(tr, -1, j, k);
      var m :| 0 <= m < j && Touches(tr[m], k) && tr[m].Erased? && Untouched(tr, m, j, k);
      assert i < m < j;
    }
  }

  /** No ABA: once the key is touched after a write, the revision of that write, or any older one,
      is never accepted again, whatever deletions and re-creations follow. */
  lemma {:induction false} StaleRevisionNeverCommits(steps: seq<Step>, w: nat, t: nat, i: nat)
    requires w < t < i < |steps|
    requires steps[i].Cas? && 0 < steps[i].expected
    requires Trace(NewServer, steps)[w].Written? && Trace(NewServer, steps)[w].key == steps[i].key
    requires Touches(Trace(NewServer, steps)[t], steps[i].key)
    requires steps[i].expected <= Trace(NewServer, steps)[w].rev
    ensures Trace(NewServer, steps)[i] == NoEffect
  {
    var tr, k, e := Trace(NewServer, steps), steps[i].key, steps[i].expected;
    TraceAt(NewServer, steps, i);
    if tr[i].Written? {
      CasCommitsIff(steps, i);
      var j :| 0 <= j < i && Writes(tr[j], k, e) && Untouched(tr, j, i, k);
      assert j >= t > w;
      RevisionsIncrease(steps, w, j);
    }
  }

  /** The returned revision is the one to name next: it is accepted exactly while nobody touches the key. */
  lemma {:induction false} ReturnedRevisionUsable(steps: seq<Step>, w: nat, i: nat)
    requires w < i < |steps|
    requires Trace(NewServer, steps)[w].Written? && steps[i].Cas?
    requires steps[i].key == Trace(NewServer, steps)[w].key && steps[i].expected == Trace(NewServer, steps)[w].rev
    ensures Trace(NewServer, steps)[i].Written? <==> Untouched(Trace(NewServer, steps), w, i, steps[i].key)
  {
    var tr, k, e := Trace(NewServer, steps), steps[i].key, steps[i].expected;
    TraceAt(NewServer, steps, w);
    WrittenRevision(steps, w);
    CasCommitsIff(steps, i);
    assert Writes(tr[w], k, e);
    if tr[i].Written? {
      var j :| 0 <= j < i && Writes(tr[j], k, e) && Untouched(tr, j, i, k);
      assert j >= w;
      if w < j { RevisionsIncrease(steps, w, j); }
    }
  }

  /** A Put reads the mod revision before step p and commits at step i. It commits exactly when nothing touched
      the key in between, or when it found no key and whatever was created in between was deleted again. */
  lemma {:induction false} PutCommitsIff(steps: seq<Step>, p: nat, i: nat)
    requires p <= i < |steps| && steps[i].Cas? && steps[i].key != []
    requires steps[i].expected == ModRevision(Run(NewServer, steps[..p]), steps[i].key)
    ensures var tr, k, e := Trace(NewServer, steps), steps[i].key, steps[i].expected;
            tr[i].Written? <==>
            Untouched(tr, p - 1, i, k) ||
            (e == 0 && exists j :: p <= j < i && Touches(tr[j], k) && tr[j].Erased? && Untouched(tr, j, i, k))
  {
    var tr, k, e := Trace(NewServer, steps), steps[i].key, steps[i].expected;
    ReadMeans(steps, p, k, e);
    CasCommitsIff(steps, i);
    if e > 0 {
      var a :| 0 <= a < p && Writes(tr[a], k, e) && Untouched(tr, a, p, k);
      if Untouched(tr, p - 1, i, k) {
        assert Untouched(tr, a, i, k);
      }
      if tr[i].Written? {
        var j :| 0 <= j < i && Writes(tr[j], k, e) && Untouched(tr, j, i, k);
        assert j >= a;
        if a < j { RevisionsIncrease(steps, a, j); }
      }
    } else if !Untouched(tr, -1, p, k) {
      var a :| 0 <= a < p && Touches(tr[a], k) && tr[a].Erased? && Untouched(tr, a, p, k);
      if Untouched(tr, p - 1, i, k) {
        assert Untouched(tr, a, i, k);
      }
    }
  }

  // What the read of a Put tells about the outcomes before it.
  lemma {:induction false} ReadMeans(steps: seq<Step>, p: nat, k: Key, e: nat)
    requires p <= |steps| && e == ModRevision(Run(NewServer, steps[..p]), k)
    ensures var tr := Trace(NewServer, steps);
            if e > 0 then exists j :: 0 <= j < p && Writes(tr[j], k, e) && Untouched(tr, j, p, k)
            else Untouched(tr, -1, p, k) ||
                 exists j :: 0 <= j < p && Touches(tr[j], k) && tr[j].Erased? && Untouched(tr, j, p, k)
  {
    var tr := Trace(NewServer, steps);
    TracePrefix(steps, p);
    ModRevisionIsLastWrite(steps[..p], k);
    forall m | 0 <= m < p ensures tr[..p][m] == tr[m] && (tr[m].Written? ==> tr[m].rev > 0) {
      WrittenRevision(steps, m);
    }
    LastWriteMeans(tr[..p], k, e);
    assert forall j :: -1 <= j < p ==> (Untouched(tr[..p], j, p, k) <==> Untouched(tr, j, p, k));
  }

  lemma {:induction false} TracePrefix(steps: seq<Step>, p: nat)
    requires p <= |steps|
    ensures Trace(NewServer, steps)[..p] == Trace(NewServer, steps[..p])
  {
    if p < |steps| {
      TraceAt(NewServer, steps, p);
    } else {
      assert steps[..p] == steps;
      assert Trace(NewServer, steps)[..p] == Trace(NewServer, steps);
    }
  }
}
