// pkg/config/config.go (the node selector of LegacyOptions) and config/legacyconfig/migrate.go (mergeIntoMap).
module NodeSelector {
  import opened Common
  import opened Text

  type Labels = map<string, string>

  // unicode.IsSpace
  predicate IsSpace(c: char) {
    var n := c as int;
    || 9 <= n <= 13 || n == 0x20 || n == 0x85 || n == 0xA0 || n == 0x1680 || 0x2000 <= n <= 0x200A
    || n == 0x2028 || n == 0x2029 || n == 0x202F || n == 0x205F || n == 0x3000
  }

  predicate LeadingSpace(s: string) {
    s != "" && IsSpace(s[0])
  }

  predicate TrailingSpace(s: string) {
    s != "" && IsSpace(s[|s| - 1])
  }

  function TrimLeft(s: string): (t: string)
    ensures !LeadingSpace(t) && (!LeadingSpace(s) ==> t == s) && forall c :: c in t ==> c in s
  {
    if LeadingSpace(s) then TrimLeft(s[1..]) else s
  }

  function TrimRight(s: string): (t: string)
    ensures !TrailingSpace(t) && (!TrailingSpace(s) ==> t == s) && t <= s
  {
    if TrailingSpace(s) then TrimRight(s[..|s| - 1]) else s
  }

  // strings.TrimSpace
  function TrimSpace(s: string): (t: string)
    ensures !LeadingSpace(t) && !TrailingSpace(t) && (!LeadingSpace(s) && !TrailingSpace(s) ==> t == s)
    ensures forall c :: c in t ==> c in s
  {
    TrimRight(TrimLeft(s))
  }

  datatype Label = Label(key: string, value: string)

  // One part of a selector; a part without '=' is skipped.
  function Parse(part: string): Option<Label> {
    var t := TrimSpace(part);
    var i := Find(t, '=');
    if i < |t| then Some(Label(t[..i], t[i + 1..])) else None
  }

  function Merged(labels: Labels, parts: seq<string>): Labels {
    if parts == [] then labels
    else
      var before, last := Merged(labels, parts[..|parts| - 1]), Parse(parts[|parts| - 1]);
      if last.None? then before else before[last.value.key := last.value.value]
  }

  method MergeIntoMap(labels: Option<Labels>, parts: seq<string>) returns (merged: Labels)
    ensures merged == Merged(if labels.Some? then labels.value else map[], parts)
  {
    merged := if labels.Some? then labels.value else map[];
    for i := 0 to |parts|
      invariant merged == Merged(if labels.Some? then labels.value else map[], parts[..i])
    {
      var entry := Parse(parts[i]);
      assert parts[..i + 1][..i] == parts[..i];
      if entry.Some? {
        merged := merged[entry.value.key := entry.value.value];
      }
    }
    assert parts[..|parts|] == parts;
  }

  // ---- rendering ----

  function Selector(key: string, value: string): string {
    key + ['='] + value
  }

  function Selectors(labels: Labels, order: seq<string>): seq<string>
    requires forall i :: 0 <= i < |order| ==> order[i] in labels
  {
    seq(|order|, i requires 0 <= i < |order| => Selector(order[i], labels[order[i]]))
  }

  predicate IsOrder(order: seq<string>, labels: Labels) {
    && (forall i :: 0 <= i < |order| ==> order[i] in labels)
    && (forall k :: k in labels ==> k in order)
    && (forall i, j :: 0 <= i < j < |order| ==> order[i] != order[j])
  }

  /** The map may be visited in any order, which is returned for reference. */
  method Render(enabled: bool, labels: Labels) returns (selector: string, ghost order: seq<string>)
    ensures enabled ==> IsOrder(order, labels) && selector == Join(Selectors(labels, order), ',')
    ensures !enabled ==> selector == ""
  {
    selector, order := "", [];
    if enabled {
      var selectors: seq<string> := [];
      var todo := labels.Keys;
      while todo != {}
        invariant todo <= labels.Keys
        invariant forall i :: 0 <= i < |order| ==> order[i] in labels && order[i] !in todo
        invariant forall k :: k in labels && k !in todo ==> k in order
        invariant forall i, j :: 0 <= i < j < |order| ==> order[i] != order[j]
        invariant selectors == Selectors(labels, order)
        decreases |todo|
      {
        var k :| k in todo;
        selectors := selectors + [Selector(k, labels[k])];
        order := order + [k];
        todo := todo - {k};
      }
      selector := Join(selectors, ',');
    }
  }

  // ---- the round trip ----

  predicate Plain(l: Label) {
    && '=' !in l.key && ',' !in l.key && !LeadingSpace(l.key)
    && ',' !in l.value && !TrailingSpace(l.value)
  }

  predicate AllPlain(labels: Labels) {
    forall k :: k in labels ==> Plain(Label(k, labels[k]))
  }

  lemma {:induction false} ParseSelector(l: Label)
    requires Plain(l)
    ensures ',' !in Selector(l.key, l.value) && Parse(Selector(l.key, l.value)) == Some(l)
  {
    var s := Selector(l.key, l.value);
    assert !LeadingSpace(s) by { assert s[0] == if l.key == "" then '=' else l.key[0]; }
    assert !TrailingSpace(s) by { assert s[|s| - 1] == if l.value == "" then '=' else l.value[|l.value| - 1]; }
    assert s[..|l.key|] == l.key && s[|l.key| + 1..] == l.value;
    FindAt(s, '=', |l.key|);
  }

  // Whatever is parsed is plain.
  lemma {:induction false} ParsedIsPlain(part: string)
    requires ',' !in part && Parse(part).Some?
    ensures Plain(Parse(part).value)
  {
    var t := TrimSpace(part);
    var l := Parse(part).value;
    assert l.key != "" ==> l.key[0] == t[0];
    assert l.value != "" ==> l.value[|l.value| - 1] == t[|t| - 1];
  }

  lemma {:induction false} MergedIsPlain(parts: seq<string>)
    requires forall i :: 0 <= i < |parts| ==> ',' !in parts[i]
    ensures AllPlain(Merged(map[], parts))
  {
    if parts != [] {
      MergedIsPlain(parts[..|parts| - 1]);
      if Parse(parts[|parts| - 1]).Some? { ParsedIsPlain(parts[|parts| - 1]); }
    }
  }

  function Restricted(labels: Labels, order: seq<string>): Labels {
    map k | k in labels && k in order :: labels[k]
  }

  lemma {:induction false} RestrictedMore(start: Labels, labels: Labels, before: seq<string>, k: string)
    requires k in labels
    ensures start + Restricted(labels, before + [k]) == (start + Restricted(labels, before))[k := labels[k]]
  {
  }

  lemma {:induction false} SelectorsLast(labels: Labels, before: seq<string>, k: string)
    requires k in labels && forall i :: 0 <= i < |before| ==> before[i] in labels
    ensures Selectors(labels, before + [k]) == Selectors(labels, before) + [Selector(k, labels[k])]
  {
  }

  lemma {:induction false} MergedLast(start: Labels, parts: seq<string>, part: string, l: Label)
    requires Parse(part) == Some(l)
    ensures Merged(start, parts + [part]) == Merged(start, parts)[l.key := l.value]
  {
    assert (parts + [part])[..|parts + [part]| - 1] == parts;
  }

  lemma {:induction false} MergedSelectors(start: Labels, labels: Labels, order: seq<string>)
    requires AllPlain(labels) && forall i :: 0 <= i < |order| ==> order[i] in labels
    ensures Merged(start, Selectors(labels, order)) == start + Restricted(labels, order)
  {
    if order == [] {
      assert start + Restricted(labels, order) == start;
    } else {
      var k, before := order[|order| - 1], order[..|order| - 1];
      assert order == before + [k];
      MergedSelectors(start, labels, before);
      ParseSelector(Label(k, labels[k]));
      SelectorsLast(labels, before, k);
      MergedLast(start, Selectors(labels, before), Selector(k, labels[k]), Label(k, labels[k]));
      RestrictedMore(start, labels, before, k);
    }
  }

  lemma {:induction false} SelectorsHoldNoComma(labels: Labels, order: seq<string>)
    requires AllPlain(labels) && forall i :: 0 <= i < |order| ==> order[i] in labels
    ensures forall i :: 0 <= i < |order| ==> ',' !in Selectors(labels, order)[i]
  {
    forall i | 0 <= i < |order| ensures ',' !in Selectors(labels, order)[i] {
      ParseSelector(Label(order[i], labels[order[i]]));
    }
  }

  lemma {:induction false} MergedNothing(start: Labels)
    ensures Merged(start, Split("", ',')) == start
  {
    var parts := Split("", ',');
    assert parts == [""] && parts[..0] == [];
    assert Parse("").None?;
  }

  /** Reading a rendered selector into a map adds exactly the labels, when they are plain. */
  lemma {:induction false} ReadingAddsLabels(start: Labels, labels: Labels, order: seq<string>)
    requires IsOrder(order, labels) && AllPlain(labels)
    ensures Merged(start, Split(Join(Selectors(labels, order), ','), ',')) == start + labels
  {
    var parts := Selectors(labels, order);
    if order == [] {
      assert labels == map[] && start + labels == start;
      MergedNothing(start);
    } else {
      SelectorsHoldNoComma(labels, order);
      SplitUndoesJoin(parts, ',');
      MergedSelectors(start, labels, order);
      assert Restricted(labels, order) == labels;
    }
  }

  /** Reading a rendered selector gives back the labels exactly when they are plain, in whatever order they stand. */
  lemma {:induction false} RoundTripIff(labels: Labels, order: seq<string>)
    requires IsOrder(order, labels)
    ensures Merged(map[], Split(Join(Selectors(labels, order), ','), ',')) == labels <==> AllPlain(labels)
  {
    if AllPlain(labels) {
      ReadingAddsLabels(map[], labels, order);
      assert map[] + labels == labels;
    } else {
      SplitHasNone(Join(Selectors(labels, order), ','), ',');
      MergedIsPlain(Split(Join(Selectors(labels, order), ','), ','));
    }
  }
}
