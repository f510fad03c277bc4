// pkg/util/namespaces: which host namespaces a virtual namespace may be mapped to, and the translation that uses the
// mappings.
module NamespaceSync {
  import opened Common
  import opened Text

  // Names as Kubernetes accepts them, in full or as a prefix.
  datatype Names = Names(isNamespace: string -> bool, isNamespacePrefix: string -> bool)

  type Mappings = map<string, string>   // virtual namespace -> host namespace

  const PLACEHOLDER := "${name}"

  predicate IsPattern(s: string) {
    '*' in s
  }

  // ProcessNamespaceName
  function Resolve(s: string, cluster: string): string {
    ReplaceAll(s, PLACEHOLDER, cluster)
  }

  // MatchAndExtractWildcard
  function Match(name: string, pattern: string): Option<string> {
    var i := Find(pattern, '*');
    if i == |pattern| then None
    else
      var prefix, suffix := pattern[..i], pattern[i + 1..];
      if prefix <= name && HasSuffix(name, suffix) && |name| >= |prefix| + |suffix|
      then Some(name[|prefix|..|name| - |suffix|]) else None
  }

  // ---- what is accepted ----

  predicate OtherPlaceholder(s: string) {
    CountText(s, "${") > 0 && '}' in s
  }

  // validateNamePlaceholderUsage: the placeholder at most once, and no other one.
  predicate ValidPlaceholders(part: string, cluster: string) {
    && CountText(part, PLACEHOLDER) <= 1
    && !OtherPlaceholder(if CountText(part, PLACEHOLDER) == 0 then part else Resolve(part, cluster))
  }

  predicate ValidExact(names: Names, part: string, cluster: string) {
    part != "" && !IsPattern(part) && ValidPlaceholders(part, cluster) && names.isNamespace(Resolve(part, cluster))
  }

  predicate ValidPattern(names: Names, pattern: string, cluster: string) {
    && Count(pattern, '*') == 1 && HasSuffix(pattern, "*")
    && var prefix := pattern[..|pattern| - 1];
       && ValidPlaceholders(prefix, cluster)
       && var literal := Resolve(prefix, cluster);
          literal == "" || (|literal| <= 32 && names.isNamespacePrefix(literal))
  }

  // The host side never covers the namespace of the control plane.
  predicate SparesControlPlane(host: string, cluster: string, own: string) {
    if IsPattern(host) then host != "*" && Match(own, Resolve(host, cluster)).None?
    else Resolve(host, cluster) != own
  }

  predicate ValidEntry(names: Names, virtual: string, host: string, cluster: string, own: string) {
    && (IsPattern(virtual) <==> IsPattern(host))
    && (if IsPattern(virtual) then ValidPattern(names, virtual, cluster) && ValidPattern(names, host, cluster)
        else ValidExact(names, virtual, cluster) && ValidExact(names, host, cluster))
    && SparesControlPlane(host, cluster, own)
  }

  predicate ValidMappings(names: Names, mappings: Mappings, cluster: string, own: string) {
    && mappings != map[]
    && (forall v :: v in mappings ==> ValidEntry(names, v, mappings[v], cluster, own))
    && (forall v, u :: v in mappings && u in mappings && v != u ==> mappings[v] != mappings[u])
  }

  method ValidateExactPart(names: Names, part: string, cluster: string) returns (ok: bool)
    ensures ok <==> ValidExact(names, part, cluster)
  {
    if part == "" {
      return false;
    }
    if IsPattern(part) {
      return false;
    }
    ok := ValidatePlaceholders(part, cluster);
    if !ok {
      return;
    }
    ok := names.isNamespace(Resolve(part, cluster));
  }

  method ValidatePatternPart(names: Names, pattern: string, cluster: string) returns (ok: bool)
    ensures ok <==> ValidPattern(names, pattern, cluster)
  {
    if Count(pattern, '*') != 1 {
      return false;
    }
    if !HasSuffix(pattern, "*") {
      return false;
    }
    var prefix := pattern[..|pattern| - 1];
    ok := ValidatePlaceholders(prefix, cluster);
    if !ok {
      return;
    }
    var literal := Resolve(prefix, cluster);
    if |literal| == 0 {
      return true;
    }
    if |literal| > 32 {
      return false;
    }
    ok := names.isNamespacePrefix(literal);
  }

  method ValidatePlaceholders(part: string, cluster: string) returns (ok: bool)
    ensures ok <==> ValidPlaceholders(part, cluster)
  {
    if CountText(part, PLACEHOLDER) == 0 {
      return !OtherPlaceholder(part);
    }
    if CountText(part, PLACEHOLDER) > 1 {
      return false;
    }
    return !OtherPlaceholder(Resolve(part, cluster));
  }

  method ValidateEntry(names: Names, virtual: string, host: string, cluster: string, own: string) returns (ok: bool)
    ensures ok <==> ValidEntry(names, virtual, host, cluster, own)
  {
    if IsPattern(virtual) != IsPattern(host) {
      return false;
    }
    if IsPattern(virtual) {
      ok := ValidatePatternPart(names, virtual, cluster);
      if !ok {
        return;
      }
      ok := ValidatePatternPart(names, host, cluster);
    } else {
      ok := ValidateExactPart(names, virtual, cluster);
      if !ok {
        return;
      }
      ok := ValidateExactPart(names, host, cluster);
    }
    ok := ok && SparesControlPlane(host, cluster, own);
  }

  /** ValidateNamespaceSyncConfig, for enabled namespace sync: accepts exactly valid entries with distinct host
      sides. */
  method ValidateNamespaceSync(names: Names, mappings: Mappings, cluster: string, own: string) returns (ok: bool)
    ensures ok <==> ValidMappings(names, mappings, cluster, own)
  {
    if |mappings| == 0 {
      return false;
    }
    var hosts: set<string> := {};
    var todo := mappings.Keys;
    while todo != {}
      invariant todo <= mappings.Keys
      invariant forall v :: v in mappings && v !in todo ==>
          ValidEntry(names, v, mappings[v], cluster, own) && mappings[v] in hosts
      invariant forall h :: h in hosts ==> exists v :: v in mappings && v !in todo && mappings[v] == h
      invariant forall v, u :: v in mappings && u in mappings && v != u && v !in todo && u !in todo ==>
          mappings[v] != mappings[u]
      decreases |todo|
    {
      var v :| v in todo;
      if mappings[v] in hosts {
        return false;
      }
      ok := ValidateEntry(names, v, mappings[v], cluster, own);
      if !ok {
        return;
      }
      hosts, todo := hosts + {mappings[v]}, todo - {v};
    }
    ok := true;
  }

  // ---- translation ----

  // What a host namespace is called inside, by one mapping.
  function ByExact(virtual: string, host: string, cluster: string, name: string): Option<string> {
    if !IsPattern(host) && !IsPattern(virtual) && Resolve(host, cluster) == name then Some(Resolve(virtual, cluster))
    else None
  }

  function ByPattern(virtual: string, host: string, cluster: string, name: string): Option<string> {
    if !IsPattern(host) || !IsPattern(virtual) then None
    else Substitute(Resolve(virtual, cluster), Resolve(host, cluster), name)
  }

  // What the wildcard of one pattern stands for in a name, put into the other pattern.
  function Substitute(virtual: string, host: string, name: string): Option<string> {
    var wildcard := Match(name, host);
    if wildcard.None? then None
    else
      var i := Find(virtual, '*');
      if i == |virtual| then Some(virtual) else Some(virtual[..i] + wildcard.value + virtual[i + 1..])
  }

  ghost predicate Exactly(mappings: Mappings, cluster: string, name: string, r: string) {
    exists v :: v in mappings && ByExact(v, mappings[v], cluster, name) == Some(r)
  }

  ghost predicate ByWildcard(mappings: Mappings, cluster: string, name: string, r: string) {
    exists v :: v in mappings && ByPattern(v, mappings[v], cluster, name) == Some(r)
  }

  // What some iteration order answers: patterns are asked only if no exact mapping has the name.
  ghost predicate Answer(mappings: Mappings, cluster: string, name: string, r: string) {
    || Exactly(mappings, cluster, name, r)
    || (ByWildcard(mappings, cluster, name, r) && forall q :: !Exactly(mappings, cluster, name, q))
  }

  /** TranslateHostNamespace, for any iteration order: an exact mapping if there is one, else a pattern, else none. */
  method TranslateHostNamespace(cluster: string, name: string, mappings: Mappings) returns (r: Option<string>)
    ensures r.Some? ==> Answer(mappings, cluster, name, r.value)
    ensures r.None? ==> forall q :: !Exactly(mappings, cluster, name, q) && !ByWildcard(mappings, cluster, name, q)
  {
    var todo := mappings.Keys;
    while todo != {}
      invariant todo <= mappings.Keys
      invariant forall v :: v in mappings && v !in todo ==> ByExact(v, mappings[v], cluster, name).None?
      decreases |todo|
    {
      var v :| v in todo;
      r := ByExact(v, mappings[v], cluster, name);
      if r.Some? {
        return;
      }
      todo := todo - {v};
    }
    todo := mappings.Keys;
    while todo != {}
      invariant todo <= mappings.Keys
      invariant forall v :: v in mappings && v !in todo ==> ByPattern(v, mappings[v], cluster, name).None?
      decreases |todo|
    {
      var v :| v in todo;
      r := ByPattern(v, mappings[v], cluster, name);
      if r.Some? {
        return;
      }
      todo := todo - {v};
    }
    r := None;
  }

  /** With accepted mappings the namespace that the control plane runs in is never taken for a synced one. */
  lemma {:induction false} ControlPlaneIsNeverSynced(names: Names, mappings: Mappings, cluster: string, own: string,
                                                     r: string)
    requires ValidMappings(names, mappings, cluster, own)
    ensures !Exactly(mappings, cluster, own, r) && !ByWildcard(mappings, cluster, own, r)
  {
    forall v | v in mappings
      ensures ByExact(v, mappings[v], cluster, own).None? && ByPattern(v, mappings[v], cluster, own).None?
    {
      assert ValidEntry(names, v, mappings[v], cluster, own);
    }
  }

  // ---- patterns that the validation accepts ----

  // Names that may be a prefix hold no wildcard, as in Kubernetes.
  ghost predicate NoWildcards(names: Names) {
    forall s :: names.isNamespacePrefix(s) ==> '*' !in s
  }

  // The part of a pattern before its wildcard, with the placeholder replaced.
  function Literal(pattern: string, cluster: string): string
    requires pattern != ""
  {
    Resolve(pattern[..|pattern| - 1], cluster)
  }

  lemma {:induction false} ReplaceKeepsLast(s: string, sub: string, with_: string, c: char)
    requires sub != "" && sub[|sub| - 1] != c
    ensures ReplaceAll(s + [c], sub, with_) == ReplaceAll(s, sub, with_) + [c]
  {
    var t := s + [c];
    if |t| < |sub| {
    } else if |s| < |sub| {
      assert t[..|sub|] == t && t[|t| - 1] == c;
      assert [t[0]] + t[1..] == t;
    } else if s[..|sub|] == sub {
      assert t[..|sub|] == s[..|sub|] && t[|sub|..] == s[|sub|..] + [c];
      ReplaceKeepsLast(s[|sub|..], sub, with_, c);
    } else {
      assert t[..|sub|] == s[..|sub|] && t[1..] == s[1..] + [c];
      ReplaceKeepsLast(s[1..], sub, with_, c);
    }
  }

  // An accepted pattern is a literal followed by the wildcard.
  lemma {:induction false} ResolvedPattern(names: Names, pattern: string, cluster: string)
    requires NoWildcards(names) && ValidPattern(names, pattern, cluster)
    ensures pattern != "" && Resolve(pattern, cluster) == Literal(pattern, cluster) + ['*']
    ensures '*' !in Literal(pattern, cluster) && |Literal(pattern, cluster)| <= 32
  {
    var n := |pattern| - 1;
    assert pattern[n..] == "*" && pattern == pattern[..n] + ['*'] by { assert pattern[n] == pattern[n..][0]; }
    assert PLACEHOLDER[|PLACEHOLDER| - 1] == '}';
    ReplaceKeepsLast(pattern[..n], PLACEHOLDER, cluster, '*');
  }

  lemma {:induction false} MatchLiteral(name: string, p: string)
    requires '*' !in p
    ensures Find(p + ['*'], '*') == |p|
    ensures Match(name, p + ['*']) == if p <= name then Some(name[|p|..]) else None
  {
    var pattern := p + ['*'];
    assert pattern[..|p|] == p && pattern[|p| + 1..] == "";
    FindAt(pattern, '*', |p|);
    assert name[|name|..] == "" && name[..|name|] == name;
  }

  lemma {:induction false} SubstituteLiterals(virtual: string, host: string, name: string)
    requires '*' !in virtual && '*' !in host
    ensures Substitute(virtual + ['*'], host + ['*'], name) ==
              if host <= name then Some(virtual + name[|host|..]) else None
  {
    MatchLiteral(name, host);
    MatchLiteral(name, virtual);
    var pattern := virtual + ['*'];
    assert pattern[..|virtual|] == virtual && pattern[|virtual| + 1..] == "";
    if host <= name {
      assert virtual + name[|host|..] + "" == virtual + name[|host|..];
    }
  }

  // What an accepted pattern mapping answers.
  lemma {:induction false} PatternAnswer(names: Names, v: string, h: string, cluster: string, name: string)
    requires NoWildcards(names) && IsPattern(v) && IsPattern(h)
    requires ValidPattern(names, v, cluster) && ValidPattern(names, h, cluster)
    ensures var p := Literal(h, cluster);
            ByPattern(v, h, cluster, name) ==
              if p <= name then Some(Literal(v, cluster) + name[|p|..]) else None
  {
    ResolvedPattern(names, v, cluster);
    ResolvedPattern(names, h, cluster);
    SubstituteLiterals(Literal(v, cluster), Literal(h, cluster), name);
  }

  // ---- independence of the iteration order ----

  // Two exact mappings that claim the same host namespace, once the placeholder is replaced, for different names.
  predicate Overlap(mappings: Mappings, cluster: string) {
    exists v, u ::
      && v in mappings && u in mappings
      && !IsPattern(v) && !IsPattern(u) && !IsPattern(mappings[v]) && !IsPattern(mappings[u])
      && Resolve(mappings[v], cluster) == Resolve(mappings[u], cluster) && Resolve(v, cluster) != Resolve(u, cluster)
  }

  // One pattern mapping goes on as the other does where its literal extends the other's, on both sides alike.
  predicate Continues(v: string, h: string, u: string, g: string, cluster: string)
    requires v != "" && h != "" && u != "" && g != ""
  {
    var p, q := Literal(h, cluster), Literal(g, cluster);
    p <= q ==> Literal(v, cluster) + q[|p|..] == Literal(u, cluster)
  }

  predicate PatternsContinue(mappings: Mappings, cluster: string) {
    forall v, u ::
      && v in mappings && u in mappings
      && IsPattern(v) && IsPattern(u) && IsPattern(mappings[v]) && IsPattern(mappings[u]) ==>
        Continues(v, mappings[v], u, mappings[u], cluster)
  }

  // The answer for every host namespace is the same in every order.
  ghost predicate OrderIndependent(mappings: Mappings, cluster: string) {
    forall name, q, r :: Answer(mappings, cluster, name, q) && Answer(mappings, cluster, name, r) ==> q == r
  }

  /** The answer of the exact mappings depends on the iteration order, for some host namespace, exactly when two of them
      resolve to the same host namespace: the duplicate test compares the names before the placeholder is replaced. */
  lemma {:induction false} ExactAnswersAreUniqueIff(mappings: Mappings, cluster: string)
    ensures (forall name, q, r :: Exactly(mappings, cluster, name, q) && Exactly(mappings, cluster, name, r) ==> q == r)
            <==> !Overlap(mappings, cluster)
  {
    if Overlap(mappings, cluster) {
      var v, u :| && v in mappings && u in mappings
                  && !IsPattern(v) && !IsPattern(u) && !IsPattern(mappings[v]) && !IsPattern(mappings[u])
                  && Resolve(mappings[v], cluster) == Resolve(mappings[u], cluster)
                  && Resolve(v, cluster) != Resolve(u, cluster);
      var name := Resolve(mappings[v], cluster);
      assert ByExact(v, mappings[v], cluster, name) == Some(Resolve(v, cluster));
      assert ByExact(u, mappings[u], cluster, name) == Some(Resolve(u, cluster));
      assert Exactly(mappings, cluster, name, Resolve(v, cluster));
      assert Exactly(mappings, cluster, name, Resolve(u, cluster));
    } else {
      forall name, q, r | Exactly(mappings, cluster, name, q) && Exactly(mappings, cluster, name, r) ensures q == r {
        var v :| v in mappings && ByExact(v, mappings[v], cluster, name) == Some(q);
        var u :| u in mappings && ByExact(u, mappings[u], cluster, name) == Some(r);
      }
    }
  }

  // Two literals of one name: the longer one's answer is what the shorter one's is.
  lemma {:induction false} ContinuedAnswers(p: string, q: string, v: string, u: string, name: string)
    requires p <= q <= name && v + q[|p|..] == u
    ensures v + name[|p|..] == u + name[|q|..]
  {
    assert name[|p|..] == q[|p|..] + name[|q|..];
    assert v + (q[|p|..] + name[|q|..]) == (v + q[|p|..]) + name[|q|..];
  }

  lemma {:induction false} PatternsAgree(names: Names, mappings: Mappings, cluster: string, own: string, name: string,
                                         q: string, r: string)
    requires NoWildcards(names) && ValidMappings(names, mappings, cluster, own) && PatternsContinue(mappings, cluster)
    requires ByWildcard(mappings, cluster, name, q) && ByWildcard(mappings, cluster, name, r)
    ensures q == r
  {
    var v :| v in mappings && ByPattern(v, mappings[v], cluster, name) == Some(q);
    var u :| u in mappings && ByPattern(u, mappings[u], cluster, name) == Some(r);
    assert ValidEntry(names, v, mappings[v], cluster, own) && ValidEntry(names, u, mappings[u], cluster, own);
    PatternAnswer(names, v, mappings[v], cluster, name);
    PatternAnswer(names, u, mappings[u], cluster, name);
    var a, b := Literal(mappings[v], cluster), Literal(mappings[u], cluster);
    assert Continues(v, mappings[v], u, mappings[u], cluster) && Continues(u, mappings[u], v, mappings[v], cluster);
    if |a| <= |b| {
      assert a <= b;
      ContinuedAnswers(a, b, Literal(v, cluster), Literal(u, cluster), name);
    } else {
      assert b <= a;
      ContinuedAnswers(b, a, Literal(u, cluster), Literal(v, cluster), name);
    }
  }

  // An extension of a text that is not in a set, no longer than the set is large.
  lemma {:induction false} Extension(taken: set<string>, base: string) returns (w: string)
    ensures base + w !in taken && |w| <= |taken|
    decreases taken
  {
    w := "";
    if base + w in taken {
      assert base + w == base;
      var more := Extension(taken - {base}, base + "a");
      w := "a" + more;
      assert base + w == base + "a" + more;
    }
  }

  // The host names of the exact mappings.
  function ExactHosts(mappings: Mappings, cluster: string): set<string> {
    set v | v in mappings && !IsPattern(mappings[v]) :: Resolve(mappings[v], cluster)
  }

  lemma {:induction false} DivergingAnswers(p: string, q: string, v: string, u: string, w: string)
    requires p <= q && v + q[|p|..] != u
    ensures v + (q + w)[|p|..] != u + (q + w)[|q|..]
  {
    var longer := v + q[|p|..];
    assert (q + w)[|p|..] == q[|p|..] + w && (q + w)[|q|..] == w;
    assert v + (q[|p|..] + w) == longer + w;
    assert (longer + w)[..|longer|] == longer && (u + w)[..|u|] == u;
    assert |longer + w| == |u + w| ==> |longer| == |u|;
  }

  lemma {:induction false} NotExact(mappings: Mappings, cluster: string, name: string, r: string)
    requires name !in ExactHosts(mappings, cluster)
    ensures !Exactly(mappings, cluster, name, r)
  {
  }

  // Patterns that do not go on alike give two answers to a name that no exact mapping has.
  lemma {:induction false} PatternsDisagree(names: Names, mappings: Mappings, cluster: string, own: string, v: string,
                                            u: string)
    returns (name: string, q: string, r: string)
    requires NoWildcards(names) && ValidMappings(names, mappings, cluster, own)
    requires v in mappings && u in mappings && IsPattern(v) && IsPattern(u)
    requires IsPattern(mappings[v]) && IsPattern(mappings[u])
    requires !Continues(v, mappings[v], u, mappings[u], cluster)
    ensures Answer(mappings, cluster, name, q) && Answer(mappings, cluster, name, r) && q != r
    ensures |name| <= 32 + |ExactHosts(mappings, cluster)|
  {
    assert ValidEntry(names, v, mappings[v], cluster, own) && ValidEntry(names, u, mappings[u], cluster, own);
    ResolvedPattern(names, mappings[u], cluster);
    var a, b := Literal(mappings[v], cluster), Literal(mappings[u], cluster);
    var w := Extension(ExactHosts(mappings, cluster), b);
    name := b + w;
    PatternAnswer(names, v, mappings[v], cluster, name);
    PatternAnswer(names, u, mappings[u], cluster, name);
    DivergingAnswers(a, b, Literal(v, cluster), Literal(u, cluster), w);
    q, r := Literal(v, cluster) + name[|a|..], Literal(u, cluster) + name[|b|..];
    forall s ensures !Exactly(mappings, cluster, name, s) { NotExact(mappings, cluster, name, s); }
  }

  lemma {:induction false} ExactFirst(mappings: Mappings, cluster: string, name: string, q: string, r: string)
    requires Answer(mappings, cluster, name, q) && Answer(mappings, cluster, name, r)
    ensures Exactly(mappings, cluster, name, q) <==> Exactly(mappings, cluster, name, r)
  {
  }

  /** For accepted mappings no host namespace has two possible answers if and only if no two exact mappings with
      different virtual names resolve to one host name, and wherever the literal of one host pattern extends that of
      another, its virtual literal extends the other's in the same way. */
  lemma {:induction false} AnswersAreUniqueIff(names: Names, mappings: Mappings, cluster: string, own: string)
    requires NoWildcards(names) && ValidMappings(names, mappings, cluster, own)
    ensures OrderIndependent(mappings, cluster) <==>
              !Overlap(mappings, cluster) && PatternsContinue(mappings, cluster)
  {
    ExactAnswersAreUniqueIff(mappings, cluster);
    if Overlap(mappings, cluster) {
      var name, q, r :| Exactly(mappings, cluster, name, q) && Exactly(mappings, cluster, name, r) && q != r;
      assert Answer(mappings, cluster, name, q) && Answer(mappings, cluster, name, r);
    } else if PatternsContinue(mappings, cluster) {
      forall name, q, r | Answer(mappings, cluster, name, q) && Answer(mappings, cluster, name, r) ensures q == r {
        ExactFirst(mappings, cluster, name, q, r);
        if !Exactly(mappings, cluster, name, q) {
          PatternsAgree(names, mappings, cluster, own, name, q, r);
        }
      }
    } else {
      var v, u :| && v in mappings && u in mappings
                  && IsPattern(v) && IsPattern(u) && IsPattern(mappings[v]) && IsPattern(mappings[u])
                  && !Continues(v, mappings[v], u, mappings[u], cluster);
      var name, q, r := PatternsDisagree(names, mappings, cluster, own, v, u);
    }
  }

  // ---- accepted mappings with two answers ----

  /** Exact mappings that overlap are accepted: "${name}" beside the cluster's own name. */
  lemma {:induction false} OverlapIsAccepted(names: Names, mappings: Mappings, cluster: string, own: string)
    requires names.isNamespace == (s => true) && cluster == "c" && own == "o"
    requires mappings == map["a" := "${name}", "b" := "c"]
    ensures ValidMappings(names, mappings, cluster, own) && Overlap(mappings, cluster)
  {
    ShortNames(names, "a");
    ShortNames(names, "b");
    ShortNames(names, "c");
    PlaceholderAlone(names);
    assert "a" in mappings && "b" in mappings;
    assert forall v :: v in mappings ==> v == "a" || v == "b";
    assert "a"[0] != "b"[0] && "c"[0] != "o"[0] && |PLACEHOLDER| != |"c"|;
  }

  lemma {:induction false} ShortNames(names: Names, s: string)
    requires names.isNamespace == (s => true) && |s| == 1 && s[0] != '*' && s[0] != '}'
    ensures Resolve(s, "c") == s && ValidExact(names, s, "c")
  {
  }

  lemma {:induction false} PlaceholderAlone(names: Names)
    requires names.isNamespace == (s => true)
    ensures Resolve(PLACEHOLDER, "c") == "c" && ValidExact(names, PLACEHOLDER, "c") && !IsPattern(PLACEHOLDER)
  {
    var p := PLACEHOLDER;
    assert p[..|p|] == p && p[|p|..] == "";
    assert ReplaceAll("", p, "c") == "" && CountText("", p) == 0;
    assert CountText(p, p) == 1;
  }

  lemma {:induction false} TwoEntries(names: Names, mappings: Mappings, v: string, u: string, h: string, g: string)
    requires mappings == map[v := h, u := g] && v != u && h != g
    requires ValidEntry(names, v, h, "c", "o") && ValidEntry(names, u, g, "c", "o")
    ensures ValidMappings(names, mappings, "c", "o")
  {
    assert v in mappings;
  }

  lemma {:induction false} NoPlaceholder(s: string, cluster: string)
    requires '$' !in s
    ensures CountText(s, PLACEHOLDER) == 0 && CountText(s, "${") == 0 && Resolve(s, cluster) == s
  {
    if s != "" {
      NoPlaceholder(s[1..], cluster);
      assert PLACEHOLDER[0] == '$' && "${"[0] == '$' && [s[0]] + s[1..] == s;
      assert |s| >= |PLACEHOLDER| ==> s[..|PLACEHOLDER|][0] == s[0];
      assert |s| >= 2 ==> s[..2][0] == s[0];
    }
  }

  lemma {:induction false} CountEnd(s: string, c: char)
    requires c !in s
    ensures Count(s + [c], c) == 1
  {
    if s == "" {
      assert (s + [c])[1..] == "";
    } else {
      assert (s + [c])[1..] == s[1..] + [c];
      CountEnd(s[1..], c);
    }
  }

  // A literal as everybody writes it.
  predicate Plain(s: string) {
    '*' !in s && '$' !in s && |s| <= 32
  }

  lemma {:induction false} PlainPattern(names: Names, p: string)
    requires names.isNamespacePrefix(p) && Plain(p)
    ensures ValidPattern(names, p + ['*'], "c") && IsPattern(p + ['*']) && Literal(p + ['*'], "c") == p
    ensures Resolve(p + ['*'], "c") == p + ['*']
  {
    var pattern := p + ['*'];
    assert pattern[..|pattern| - 1] == p && pattern[|p|..] == "*" && pattern[|p|] == '*';
    CountEnd(p, '*');
    NoPlaceholder(p, "c");
    NoPlaceholder(pattern, "c");
  }

  lemma {:induction false} PlainEntry(names: Names, v: string, p: string, name: string)
    requires names == Names(s => true, s => '*' !in s) && Plain(v) && Plain(p) && 1 < |p|
    ensures IsPattern(v + ['*']) && ValidEntry(names, v + ['*'], p + ['*'], "c", "o")
    ensures ByPattern(v + ['*'], p + ['*'], "c", name) == if p <= name then Some(v + name[|p|..]) else None
  {
    PlainPattern(names, v);
    PlainPattern(names, p);
    MatchLiteral("o", p);
    assert |p + ['*']| > |"*"|;
    SubstituteLiterals(v, p, name);
  }

  // Two patterns, the host side of one going on where the other's has its wildcard.
  lemma {:induction false} TwoPatternsPass(names: Names, mappings: Mappings, v: string, p: string, u: string, q: string)
    requires names == Names(s => true, s => '*' !in s) && Plain(v) && Plain(u) && Plain(p) && Plain(q)
    requires 1 < |p| < |q| && v != u && mappings == map[v + ['*'] := p + ['*'], u + ['*'] := q + ['*']]
    ensures ValidMappings(names, mappings, "c", "o")
  {
    PlainEntry(names, v, p, "");
    PlainEntry(names, u, q, "");
    assert (v + ['*'])[..|v|] == v && (u + ['*'])[..|u|] == u && |p + ['*']| < |q + ['*']|;
    TwoEntries(names, mappings, v + ['*'], u + ['*'], p + ['*'], q + ['*']);
  }

  lemma {:induction false} PlainAnswer(v: string, p: string, name: string, r: string)
    requires Plain(v) && Plain(p) && 1 < |p| && p <= name && r == v + name[|p|..]
    ensures IsPattern(v + ['*']) && ByPattern(v + ['*'], p + ['*'], "c", name) == Some(r)
  {
    PlainEntry(Names(s => true, s => '*' !in s), v, p, name);
  }

  lemma {:induction false} TwoPatternsAnswer(mappings: Mappings, v: string, p: string, u: string, q: string,
                                             name: string, first: string, second: string)
    requires Plain(v) && Plain(u) && Plain(p) && Plain(q) && 1 < |p| < |q| && v != u && p <= name && q <= name
    requires mappings == map[v + ['*'] := p + ['*'], u + ['*'] := q + ['*']]
    requires first == v + name[|p|..] && second == u + name[|q|..]
    ensures Answer(mappings, "c", name, first) && Answer(mappings, "c", name, second)
  {
    PlainAnswer(v, p, name, first);
    PlainAnswer(u, q, name, second);
    assert (v + ['*'])[..|v|] == v && (u + ['*'])[..|u|] == u;
    BothAnswer(mappings, v + ['*'], u + ['*'], p + ['*'], q + ['*'], name, first, second);
  }

  lemma {:induction false} BothAnswer(mappings: Mappings, v: string, u: string, h: string, g: string, name: string,
                                      q: string, r: string)
    requires mappings == map[v := h, u := g] && v != u && IsPattern(v) && IsPattern(u)
    requires ByPattern(v, h, "c", name) == Some(q) && ByPattern(u, g, "c", name) == Some(r)
    ensures Answer(mappings, "c", name, q) && Answer(mappings, "c", name, r)
  {
    assert v in mappings && u in mappings;
    forall s ensures !Exactly(mappings, "c", name, s) {}
  }

  lemma {:induction false} DivergingTexts(v: string, p: string, u: string, q: string, name: string, first: string,
                                          second: string)
    requires v == "x-" && p == "a-" && u == "y-" && q == "a-b-"
    requires name == "a-b-z" && first == "x-b-z" && second == "y-z"
    ensures Plain(v) && Plain(u) && Plain(p) && Plain(q) && 1 < |p| < |q| && v != u && p <= name && q <= name
    ensures first == v + name[|p|..] && second == u + name[|q|..] && first != second
  {
    assert v[0] != u[0] && first[0] != second[0];
    assert name[2..] == "b-z" && name[4..] == "z";
  }

  /** Patterns that do not go on alike are accepted: with "x-*" for "a-*" and "y-*" for "a-b-*", the host namespace
      "a-b-z" is "x-b-z" or "y-z" inside. */
  lemma {:induction false} DivergenceIsAccepted(names: Names, mappings: Mappings, v: string, p: string, u: string,
                                                q: string, name: string, first: string, second: string)
    requires names == Names(s => true, s => '*' !in s)
    requires v == "x-" && p == "a-" && u == "y-" && q == "a-b-"
    requires mappings == map[v + ['*'] := p + ['*'], u + ['*'] := q + ['*']]
    requires name == "a-b-z" && first == "x-b-z" && second == "y-z"
    ensures ValidMappings(names, mappings, "c", "o")
    ensures Answer(mappings, "c", name, first) && Answer(mappings, "c", name, second) && first != second
  {
    DivergingTexts(v, p, u, q, name, first, second);
    TwoPatternsPass(names, mappings, v, p, u, q);
    TwoPatternsAnswer(mappings, v, p, u, q, name, first, second);
  }
}
