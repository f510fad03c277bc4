// pkg/config/coredns_plugin_validation.go: what may be resolved to what.
module DnsMappings {
  import opened Text

  datatype Target = Target(
    hostname: string, ip: string, hostService: string, hostNamespace: string, vclusterService: string)

  datatype Mapping = Mapping(hostname: string, service: string, namespace: string, target: Target)

  // How many of the texts are given.
  function Given(texts: seq<string>): nat {
    if texts == [] then 0 else (if texts[0] != "" then 1 else 0) + Given(texts[1..])
  }

  predicate StarAtEnd(s: string) {
    s != "" && (s[0] == '*' || s[|s| - 1] == '*')
  }

  // At most one wildcard, at one of the ends.
  predicate ValidWildcard(s: string) {
    Count(s, '*') == 0 || (Count(s, '*') == 1 && StarAtEnd(s))
  }

  predicate ValidTarget(t: Target) {
    && Given([t.hostname, t.ip, t.hostNamespace, t.hostService, t.vclusterService]) == 1
    && (t.hostname != "" ==> ValidWildcard(t.hostname))
    && (t.hostService != "" ==> Count(t.hostService, '/') == 1)
    && (t.vclusterService != "" ==> Count(t.vclusterService, '/') == 3)
  }

  predicate ValidMapping(m: Mapping) {
    && Given([m.service, m.hostname, m.namespace]) == 1
    && (m.service != "" ==> Count(m.service, '/') == 1)
    && (m.hostname != "" ==>
          && ValidWildcard(m.hostname)
          && (Count(m.hostname, '*') == 1 ==> m.target.hostname != "" && Count(m.target.hostname, '*') == 1))
    && (m.namespace != "" <==> m.target.hostNamespace != "")
    && ValidTarget(m.target)
  }

  predicate ValidMappings(ms: seq<Mapping>) {
    forall i :: 0 <= i < |ms| ==> ValidMapping(ms[i])
  }

  lemma {:induction false} GivenThree(a: string, b: string, c: string)
    ensures Given([a, b, c]) == (if a != "" then 1 else 0) + (if b != "" then 1 else 0) + (if c != "" then 1 else 0)
  {
    assert [c][1..] == [] && Given([c]) == if c != "" then 1 else 0;
    assert [b, c][1..] == [c] && [a, b, c][1..] == [b, c];
  }

  lemma {:induction false} GivenFive(a: string, b: string, c: string, d: string, e: string)
    ensures Given([a, b, c, d, e]) ==
              (if a != "" then 1 else 0) + (if b != "" then 1 else 0) + (if c != "" then 1 else 0)
              + (if d != "" then 1 else 0) + (if e != "" then 1 else 0)
  {
    assert [a, b, c, d, e][1..] == [b, c, d, e] && [b, c, d, e][1..] == [c, d, e];
    GivenThree(c, d, e);
  }

  method ValidateTarget(t: Target) returns (ok: bool)
    ensures ok <==> ValidTarget(t)
  {
    GivenFive(t.hostname, t.ip, t.hostNamespace, t.hostService, t.vclusterService);
    var options := 0;
    if t.hostname != "" {
      options := options + 1;
      if Count(t.hostname, '*') > 1 {
        return false;
      } else if Count(t.hostname, '*') == 1 && !StarAtEnd(t.hostname) {
        return false;
      }
    }
    if t.ip != "" {
      options := options + 1;
    }
    if t.hostNamespace != "" {
      options := options + 1;
    }
    if t.hostService != "" {
      options := options + 1;
      if Count(t.hostService, '/') != 1 {
        return false;
      }
    }
    if t.vclusterService != "" {
      options := options + 1;
      if Count(t.vclusterService, '/') != 3 {
        return false;
      }
    }
    return options == 1;
  }

  method ValidateMapping(m: Mapping) returns (ok: bool)
    ensures ok <==> ValidMapping(m)
  {
    GivenThree(m.service, m.hostname, m.namespace);
    var options := 0;
    if m.service != "" {
      options := options + 1;
      if Count(m.service, '/') != 1 {
        return false;
      }
    }
    if m.hostname != "" {
      if Count(m.hostname, '*') > 1 {
        return false;
      } else if Count(m.hostname, '*') == 1 {
        if m.target.hostname == "" {
          return false;
        } else if Count(m.target.hostname, '*') != 1 {
          return false;
        }
        if !StarAtEnd(m.hostname) {
          return false;
        }
      }
      options := options + 1;
    }
    if m.namespace != "" {
      if m.target.hostNamespace == "" {
        return false;
      }
      options := options + 1;
    } else if m.target.hostNamespace != "" {
      return false;
    }
    if options == 0 {
      return false;
    } else if options > 1 {
      return false;
    }
    ok := ValidateTarget(m.target);
  }

  method Validate(ms: seq<Mapping>) returns (ok: bool)
    ensures ok <==> ValidMappings(ms)
  {
    for i := 0 to |ms|
      invariant forall j :: 0 <= j < i ==> ValidMapping(ms[j])
    {
      ok := ValidateMapping(ms[i]);
      if !ok {
        return;
      }
    }
    ok := true;
  }

  /** An accepted mapping goes from one thing to one thing of a fitting kind: a namespace to a namespace and nothing
      else, a wildcard hostname to a wildcard hostname, and no service or plain hostname to a namespace. */
  lemma {:induction false} KindsFit(m: Mapping)
    requires ValidMapping(m)
    ensures var t := m.target;
            && (m.namespace != "" <==>
                  t.hostNamespace != "" && t.hostname == t.ip == t.hostService == t.vclusterService == "")
            && (m.namespace == "" <==> m.service != "" || m.hostname != "")
            && (Count(m.hostname, '*') > 0 ==>
                  Count(m.hostname, '*') == Count(t.hostname, '*') == 1 && StarAtEnd(t.hostname))
            && !(m.service != "" && m.hostname != "")
  {
    var t := m.target;
    GivenThree(m.service, m.hostname, m.namespace);
    GivenFive(t.hostname, t.ip, t.hostNamespace, t.hostService, t.vclusterService);
  }
}
