// Byte-string keys in etcd's lexicographic order, and the range that stands for a prefix.
module Keys {
  import opened Common

  type Byte = x: int | 0 <= x < 256
  type Key = seq<Byte>

  predicate Less(a: Key, b: Key) {
    if b == [] then false
    else if a == [] then true
    else a[0] < b[0] || (a[0] == b[0] && Less(a[1..], b[1..]))
  }

  predicate AtMost(a: Key, b: Key) {
    a == b || Less(a, b)
  }

  lemma {:induction false} LessIrreflexive(a: Key)
    ensures !Less(a, a)
  {
    if a != [] { LessIrreflexive(a[1..]); }
  }

  lemma {:induction false} LessTransitive(a: Key, b: Key, c: Key)
    requires Less(a, b) && Less(b, c)
    ensures Less(a, c)
  {
    if a != [] && a[0] == b[0] == c[0] { LessTransitive(a[1..], b[1..], c[1..]); }
  }

  lemma {:induction false} LessTotal(a: Key, b: Key)
    ensures a == b || Less(a, b) || Less(b, a)
  {
    if a != [] && b != [] && a[0] == b[0] {
      LessTotal(a[1..], b[1..]);
      assert a == [a[0]] + a[1..] && b == [b[0]] + b[1..];
    }
  }

  // ---- the key just above another one ----

  /** nextStartKey: copies the key into a buffer one byte longer and ends it with 0x00. */
  method NextStartKey(key: Key) returns (next: Key)
    ensures next == key + [0]
  {
    var b := new Byte[|key| + 1];
    for i := 0 to |key|
      invariant b[..i] == key[..i]
    {
      b[i] := key[i];
    }
    b[|key|] := 0x00;
    assert b[..|key|] == key;
    next := b[..];
  }

  /** No key lies strictly between key and key+0x00. */
  lemma {:induction false} NextKeyIsLeast(key: Key, k: Key)
    ensures Less(key, k) <==> AtMost(key + [0], k)
  {
    var next := key + [0];
    if key == [] {
      if k != [] {
        assert next[0] == 0 && next[1..] == [];
        assert k[0] == 0 && k[1..] == [] ==> k == next by { assert k == [k[0]] + k[1..]; }
        assert k[0] == 0 && k[1..] != [] ==> Less(next, k);
      }
    } else if k != [] && k[0] == key[0] {
      NextKeyIsLeast(key[1..], k[1..]);
      assert next[1..] == key[1..] + [0];
      assert k == [k[0]] + k[1..] && next == [key[0]] + next[1..];
    }
  }

  // ---- prefix ranges ----

  predicate AllMax(p: Key) {
    forall i :: 0 <= i < |p| ==> p[i] == 0xff
  }

  /** The least key above every key with prefix p; None when there is none. */
  function Above(p: Key): (r: Option<Key>)
    ensures r.None? <==> AllMax(p)
    ensures r.Some? ==> r.value != [] && r.value != [0x00]
  {
    if p == [] then None
    else
      var rest := Above(p[1..]);
      assert AllMax(p) <==> p[0] == 0xff && AllMax(p[1..]) by {
        assert p == [p[0]] + p[1..];
        if p[0] == 0xff && AllMax(p[1..]) {
          forall i | 0 <= i < |p| ensures p[i] == 0xff { if i > 0 { assert p[i] == p[1..][i - 1]; } }
        }
      }
      if rest.Some? then Some([p[0]] + rest.value)
      else if p[0] < 0xff then Some([p[0] + 1])
      else None
  }

  // The server reads the range end 0x00 as "no upper bound".
  const UNBOUNDED: Key := [0x00]

  function RangeEnd(p: Key): (end: Key) {
    match Above(p)
    case None => UNBOUNDED
    case Some(e) => e
  }

  predicate InRange(k: Key, start: Key, end: Key) {
    AtMost(start, k) && (end == UNBOUNDED || Less(k, end))
  }

  lemma {:induction false} AboveAt(p: Key, i: nat)
    requires i < |p| && p[i] < 0xff && AllMax(p[i + 1..])
    ensures Above(p) == Some(p[..i] + [p[i] + 1])
  {
    if i == 0 {
      assert p[..0] + [p[0] + 1] == [p[0] + 1];
    } else {
      assert p[1..][i - 1] == p[i];
      assert p[1..][(i - 1) + 1..] == p[i + 1..];
      AboveAt(p[1..], i - 1);
      assert p[..i] + [p[i] + 1] == [p[0]] + (p[1..][..i - 1] + [p[i] + 1]);
    }
  }

  /** GetPrefixRangeEnd: increments the last byte that can be incremented and cuts the key after it. */
  method GetPrefixRangeEnd(prefix: Key) returns (end: Key)
    ensures end == RangeEnd(prefix)
  {
    var i := |prefix| - 1;
    while i >= 0
      invariant -1 <= i < |prefix|
      invariant AllMax(prefix[i + 1..])
    {
      if prefix[i] < 0xff {
        AboveAt(prefix, i);
        end := prefix[..i] + [prefix[i] + 1];
        return;
      }
      assert prefix[i..] == [prefix[i]] + prefix[i + 1..];
      i := i - 1;
    }
    assert prefix[0..] == prefix;
    end := UNBOUNDED;
  }

  /** The range [p, RangeEnd(p)) holds exactly the keys that start with p. */
  lemma {:induction false} RangeIsPrefix(p: Key, k: Key)
    ensures InRange(k, p, RangeEnd(p)) <==> p <= k
  {
    if p == [] {
      assert k != [] ==> Less(p, k);
    } else if k == [] {
    } else {
      assert p == [p[0]] + p[1..] && k == [k[0]] + k[1..];
      assert p <= k <==> p[0] == k[0] && p[1..] <= k[1..];
      RangeIsPrefix(p[1..], k[1..]);
      assert p[0] == k[0] ==> (AtMost(p, k) <==> AtMost(p[1..], k[1..]));
      assert AtMost(p, k) <==> p[0] < k[0] || (p[0] == k[0] && AtMost(p[1..], k[1..]));
      match Above(p[1..])
      case Some(e) =>
        assert ([p[0]] + e)[1..] == e;
        assert Less(k, [p[0]] + e) <==> k[0] < p[0] || (k[0] == p[0] && Less(k[1..], e));
      case None =>
        if p[0] < 0xff {
          var end: Key := [p[0] + 1];
          assert RangeEnd(p) == end && end[0] == p[0] + 1 && end[1..] == [];
          assert Less(k, end) <==> k[0] <= p[0];
          assert UNBOUNDED[0] == 0 && end != UNBOUNDED;
        }
    }
  }
}
