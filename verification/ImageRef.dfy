// config/config.go (Image.String) and config/default_extra_values.go (ParseImageRef): printing and parsing image
// references.
module ImageRef {
  import opened Text

  const LIBRARY := "library/"

  datatype Ref = Ref(registry: string, repository: string, tag: string)

  // strings.TrimPrefix(s, "library/")
  function Trim(s: string): string {
    if LIBRARY <= s then s[|LIBRARY|..] else s
  }

  // splitRepoAndTag
  function RepoAndTag(registry: string, s: string): Ref {
    var i := Find(s, ':');
    Ref(registry, Trim(s[..i]), if i < |s| then s[i + 1..] else "")
  }

  function Parse(ref: string): Ref {
    var i := Find(ref, '/');
    if i < |ref| && ('.' in ref[..i] || ':' in ref[..i]) then RepoAndTag(ref[..i], ref[i + 1..])
    else RepoAndTag("", ref)
  }

  function TagSuffix(tag: string): string {
    if tag == "" then "" else ":" + tag
  }

  function Path(r: Ref): string {
    if r.registry != "" && r.repository != "" && '/' !in r.repository then LIBRARY + r.repository else r.repository
  }

  function Print(r: Ref): string {
    (if r.registry == "" then "" else r.registry + "/") + Path(r) + TagSuffix(r.tag)
  }

  class Image {
    var registry: string
    var repository: string
    var tag: string

    function Value(): Ref
      reads this
    {
      Ref(registry, repository, tag)
    }

    constructor (r: Ref)
      ensures Value() == r
    {
      registry, repository, tag := r.registry, r.repository, r.tag;
    }
  }

  method ToString(image: Image?) returns (ref: string)
    ensures ref == if image == null then "" else Print(image.Value())
  {
    ref := "";
    if image == null {
      return;
    }
    if image.registry != "" {
      ref := image.registry + "/";
    }
    if image.registry != "" && image.repository != "" && '/' !in image.repository {
      ref := ref + LIBRARY;
    }
    ref := ref + image.repository;
    if image.tag != "" {
      ref := ref + ":" + image.tag;
    }
    Assembled(image.Value(), ref);
  }

  lemma {:induction false} Assembled(r: Ref, ref: string)
    requires ref ==
      (if r.registry == "" then "" else r.registry + "/")
      + (if r.registry != "" && r.repository != "" && '/' !in r.repository then LIBRARY else "")
      + r.repository + TagSuffix(r.tag)
    ensures ref == Print(r)
  {
    var head := if r.registry == "" then "" else r.registry + "/";
    assert head + "" == head;
    assert (head + LIBRARY) + r.repository == head + (LIBRARY + r.repository);
  }

  method SplitRepoAndTag(image: Image, s: string)
    modifies image
    ensures image.Value() == RepoAndTag(old(image.registry), s)
  {
    var i := Find(s, ':');
    if i == |s| {
      image.repository, image.tag := s, "";
      assert s[..i] == s;
    } else {
      image.repository, image.tag := s[..i], s[i + 1..];
    }
    image.repository := Trim(image.repository);
  }

  method ParseImageRef(ref: string, image: Image)
    modifies image
    ensures image.Value() == Parse(ref)
  {
    image.registry, image.repository, image.tag := "", "", "";
    var i := Find(ref, '/');
    if i == |ref| {
      SplitRepoAndTag(image, ref);
    } else if '.' in ref[..i] || ':' in ref[..i] {
      image.registry := ref[..i];
      SplitRepoAndTag(image, ref[i + 1..]);
    } else {
      SplitRepoAndTag(image, ref);
    }
  }

  // ---- the round trip ----

  // Exactly the images that survive being printed and parsed.
  predicate Canonical(r: Ref) {
    && ':' !in r.repository && !(LIBRARY <= r.repository)
    && if r.registry != "" then '/' !in r.registry && ('.' in r.registry || ':' in r.registry)
       else if '/' in r.repository then '.' !in r.repository[..Find(r.repository, '/')]
       else '/' !in r.tag
  }

  lemma {:induction false} CutTag(s: string, repository: string, tag: string)
    requires ':' !in repository && s == repository + TagSuffix(tag)
    ensures Find(s, ':') == |repository| && s[..|repository|] == repository
    ensures if tag == "" then |s| == |repository| else |repository| < |s| && s[|repository| + 1..] == tag
  {
    assert s[..|repository|] == repository;
    FindAt(s, ':', |repository|);
  }

  lemma {:induction false} RepoAndTagOf(registry: string, repository: string, tag: string)
    requires ':' !in repository
    ensures RepoAndTag(registry, repository + TagSuffix(tag)) == Ref(registry, Trim(repository), tag)
  {
    CutTag(repository + TagSuffix(tag), repository, tag);
  }

  lemma {:induction false} TrimLibrary(repository: string)
    ensures Trim(LIBRARY + repository) == repository
  {
  }

  // The first '/' of a printed reference, with what stands before and after it.
  lemma {:induction false} CutAt(ref: string, before: string, after: string)
    requires ref == before + "/" + after && '/' !in before
    ensures Find(ref, '/') == |before| < |ref| && ref[..|before|] == before && ref[|before| + 1..] == after
  {
    assert ref[..|before|] == before;
    FindAt(ref, '/', |before|);
  }

  /** Printing by parts: the registry before a '/', the tag after a ':', and "library/" before a repository of one
      segment if there is a registry. */
  lemma {:induction false} PrintsParts(r: Ref)
    ensures r.registry == "" && r.tag == "" ==> Print(r) == r.repository
    ensures r.registry == "" && r.tag != "" ==> Print(r) == r.repository + ":" + r.tag
    ensures r.registry != "" && '/' in r.repository && r.tag == "" ==> Print(r) == r.registry + "/" + r.repository
    ensures r.registry != "" && '/' in r.repository && r.tag != "" ==>
              Print(r) == r.registry + "/" + r.repository + (":" + r.tag)
    ensures r.registry != "" && r.repository != "" && '/' !in r.repository && r.tag == "" ==>
              Print(r) == r.registry + "/" + ("library/" + r.repository)
  {
    assert "" + r.repository == r.repository;
    assert r.repository + ":" + r.tag == r.repository + (":" + r.tag);
  }

  /** References by their parts: what stands before the first '/' is the registry if it holds a '.' or a ':', the tag is
      what follows the first ':' after it, and the prefix "library/" of the repository is dropped. */
  lemma {:induction false} ParsesParts(ref: string, registry: string, repository: string, tag: string)
    requires '/' !in registry && ('.' in registry || ':' in registry) && ':' !in repository
    requires ref == registry + "/" + (repository + if tag == "" then "" else ":" + tag)
    ensures Parse(ref) == Ref(registry, if "library/" <= repository then repository[8..] else repository, tag)
  {
    CutAt(ref, registry, repository + TagSuffix(tag));
    RepoAndTagOf(registry, repository, tag);
  }

  // No reference is read with a '/' in its registry.
  lemma {:induction false} NoSlashInRegistry(ref: string)
    ensures '/' !in Parse(ref).registry
  {
  }

  lemma {:induction false} RegistryReads(ref: string, registry: string, rest: string)
    requires ref == registry + "/" + rest && '/' !in registry
    ensures Parse(ref) ==
              if '.' in registry || ':' in registry then RepoAndTag(registry, rest) else RepoAndTag("", ref)
  {
    CutAt(ref, registry, rest);
  }

  lemma {:induction false} WithRegistry(r: Ref)
    requires r.registry != ""
    ensures Parse(Print(r)) == r <==> Canonical(r)
  {
    var ref, rest := Print(r), Path(r) + TagSuffix(r.tag);
    assert ref == r.registry + "/" + rest;
    NoSlashInRegistry(ref);
    if '/' !in r.registry {
      RegistryReads(ref, r.registry, rest);
      RestOf(r, rest);
    }
  }

  lemma {:induction false} RestOf(r: Ref, rest: string)
    requires r.registry != "" && rest == Path(r) + TagSuffix(r.tag)
    ensures RepoAndTag(r.registry, rest) == r <==> ':' !in r.repository && !(LIBRARY <= r.repository)
  {
    if ':' in r.repository {
      NoColon(r.registry, rest);
    } else {
      NoColonInLibrary(r.repository);
      RepoAndTagOf(r.registry, Path(r), r.tag);
      if Path(r) == r.repository {
        if LIBRARY <= r.repository { assert |Trim(r.repository)| < |r.repository|; }
      } else {
        TrimLibrary(r.repository);
        assert '/' in LIBRARY;
      }
    }
  }

  lemma {:induction false} NoColonInLibrary(repository: string)
    requires ':' !in repository
    ensures ':' !in LIBRARY + repository
  {
    assert ':' !in LIBRARY;
  }

  lemma {:induction false} NoColon(registry: string, s: string)
    ensures ':' !in RepoAndTag(registry, s).repository
  {
    var repository := s[..Find(s, ':')];
    assert forall c :: c in Trim(repository) ==> c in repository;
  }

  lemma {:induction false} WithoutRegistry(r: Ref)
    requires r.registry == "" && ':' !in r.repository
    ensures Parse(Print(r)) == r <==> Canonical(r)
  {
    var ref := Print(r);
    assert ref == r.repository + TagSuffix(r.tag);
    RepoAndTagOf("", r.repository, r.tag);
    if LIBRARY <= r.repository { assert |Trim(r.repository)| < |r.repository|; }
    if '/' in r.repository {
      FirstSegment(r, ref);
    } else if '/' in r.tag {
      TagSlash(r, ref);
    } else {
      assert '/' !in ref;
      assert ref[..|ref|] == ref;
      FindAt(ref, '/', |ref|);
    }
  }

  lemma {:induction false} FirstSegment(r: Ref, ref: string)
    requires ref == r.repository + TagSuffix(r.tag) && '/' in r.repository && ':' !in r.repository
    ensures Parse(ref).registry != "" || Parse(ref) == RepoAndTag("", ref)
    ensures Parse(ref) == RepoAndTag("", ref) <==> '.' !in r.repository[..Find(r.repository, '/')]
  {
    var i := Find(r.repository, '/');
    assert r.repository[..|r.repository|] == r.repository;
    assert i < |r.repository|;
    assert ref[..i] == r.repository[..i];
    FindAt(ref, '/', i);
  }

  // Everything up to a '/' in the tag reads as a registry, because it holds the ':'.
  lemma {:induction false} TagSlash(r: Ref, ref: string)
    requires ref == r.repository + TagSuffix(r.tag) && '/' !in r.repository && '/' in r.tag
    ensures Parse(ref).registry != ""
  {
    var n, i := |r.repository|, Find(ref, '/');
    assert ref[n] == ':';
    assert n < i < |ref| by {
      var k :| 0 <= k < |r.tag| && r.tag[k] == '/';
      assert ref[n + 1 + k] == '/';
    }
    assert ref[..i][n] == ':';
  }

  /** Parsing the printed form gives the image back exactly for canonical images. */
  lemma {:induction false} RoundTripIff(r: Ref)
    ensures Parse(Print(r)) == r <==> Canonical(r)
  {
    if r.registry != "" {
      WithRegistry(r);
    } else if ':' in r.repository {
      var i := Find(Print(r), '/');
      NoColon("", Print(r));
      if i < |Print(r)| { NoColon(Print(r)[..i], Print(r)[i + 1..]); }
    } else {
      WithoutRegistry(r);
    }
  }

  /** Two canonical images that print alike are the same image. */
  lemma {:induction false} PrintInjective(r: Ref, q: Ref)
    requires Canonical(r) && Canonical(q) && Print(r) == Print(q)
    ensures r == q
  {
    RoundTripIff(r);
    RoundTripIff(q);
  }

  /** A registry with neither '.' nor ':' is read back as part of the repository. */
  lemma {:induction false} PlainRegistryIsLost()
    ensures Parse(Print(Ref("l", "a/b", ""))) != Ref("l", "a/b", "")
  {
    RoundTripIff(Ref("l", "a/b", ""));
    assert '.' !in "l" && ':' !in "l";
  }
}
