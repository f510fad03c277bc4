// The fragment of JSON Patch (RFC 6902) and JSON Pointer (RFC 6901) that metadata cleanup relies on.
module JsonPatch {
  import opened Common
  import opened JsonTree
  import opened Text

  // ---- section 4 of RFC 6901: evaluation of pointers ----

  // Every "~c", left to right, becomes the character d.
  function Unescape(s: string, c: char, d: char): string {
    if |s| >= 2 && s[0] == '~' && s[1] == c then [d] + Unescape(s[2..], c, d)
    else if s == "" then ""
    else [s[0]] + Unescape(s[1..], c, d)
  }

  function Decode(token: string): string {
    Unescape(Unescape(token, '1', '/'), '0', '~')
  }

  function DecodeAll(tokens: seq<string>): seq<string> {
    if tokens == [] then [] else [Decode(tokens[0])] + DecodeAll(tokens[1..])
  }

  function Tokens(path: string): Option<seq<string>> {
    if path == "" then Some([])
    else if path[0] != '/' then None
    else Some(DecodeAll(Split(path[1..], '/')))
  }

  predicate IsDigit(c: char) {
    '0' <= c <= '9'
  }

  function Number(digits: string): nat
    requires forall c :: c in digits ==> IsDigit(c)
  {
    if digits == "" then 0
    else
      assert IsDigit(digits[|digits| - 1]);
      Number(digits[..|digits| - 1]) * 10 + (digits[|digits| - 1] as int - '0' as int)
  }

  // An array index has no leading zeros.
  predicate IsIndex(token: string) {
    token != "" && (token == "0" || token[0] != '0') && forall c :: c in token ==> IsDigit(c)
  }

  // ---- section 4.2 of RFC 6902: remove ----

  datatype Op = RemoveOp(path: string)

  // None when the target location does not exist.
  function Remove(doc: Json, tokens: seq<string>): Option<Json>
    decreases |tokens|
  {
    if tokens == [] then None
    else match doc
      case Obj(fields) =>
        if tokens[0] !in fields then None
        else if |tokens| == 1 then Some(Obj(fields - {tokens[0]}))
        else (match Remove(fields[tokens[0]], tokens[1..])
              case None => None
              case Some(child) => Some(Obj(fields[tokens[0] := child])))
      case Lst(items) =>
        if !IsIndex(tokens[0]) || Number(tokens[0]) >= |items| then None
        else
          var i := Number(tokens[0]);
          if |tokens| == 1 then Some(Lst(items[..i] + items[i + 1..]))
          else (match Remove(items[i], tokens[1..])
                case None => None
                case Some(child) => Some(Lst(items[i := child])))
      case _ => None
  }

  function Execute(doc: Json, op: Op): Option<Json> {
    var tokens := Tokens(op.path);
    if tokens.None? then None else Remove(doc, tokens.value)
  }

  // Operations run in order; one that fails fails the whole patch.
  function Apply(doc: Json, patch: seq<Op>): Option<Json> {
    if patch == [] then Some(doc)
    else
      var before := Apply(doc, patch[..|patch| - 1]);
      if before.None? then None else Execute(before.value, patch[|patch| - 1])
  }

  // ---- the escaper ----

  // strings.NewReplacer("~", "~0", "/", "~1")
  function Escape(s: string): string {
    if s == "" then ""
    else (if s[0] == '~' then "~0" else if s[0] == '/' then "~1" else [s[0]]) + Escape(s[1..])
  }

  // What is left of the escaping after the first decoding pass.
  function TildesEscaped(s: string): string {
    if s == "" then "" else (if s[0] == '~' then "~0" else [s[0]]) + TildesEscaped(s[1..])
  }

  lemma {:induction false} FirstPass(s: string)
    ensures Unescape(Escape(s), '1', '/') == TildesEscaped(s)
  {
    if s != "" {
      var rest := Escape(s[1..]);
      FirstPass(s[1..]);
      if s[0] == '~' {
        assert Escape(s) == ['~'] + (['0'] + rest);
        assert Escape(s)[1..] == ['0'] + rest && (['0'] + rest)[1..] == rest;
      } else if s[0] == '/' {
        assert Escape(s)[2..] == rest;
      } else {
        assert Escape(s)[1..] == rest;
      }
    }
  }

  lemma {:induction false} SecondPass(s: string)
    ensures Unescape(TildesEscaped(s), '0', '~') == s
  {
    if s != "" {
      var rest := TildesEscaped(s[1..]);
      SecondPass(s[1..]);
      if s[0] == '~' {
        assert TildesEscaped(s)[2..] == rest;
      } else {
        assert TildesEscaped(s)[1..] == rest;
      }
    }
  }

  /** Decoding undoes the escaper, and an escaped key is a single reference token. */
  lemma {:induction false} DecodeUndoesEscape(s: string)
    ensures Decode(Escape(s)) == s && Split(Escape(s), '/') == [Escape(s)]
  {
    FirstPass(s);
    SecondPass(s);
    NoSlash(s);
    SplitWhole(Escape(s), '/');
  }

  lemma {:induction false} NoSlash(s: string)
    ensures '/' !in Escape(s)
  {
    if s != "" { NoSlash(s[1..]); }
  }

  lemma {:induction false} UnescapePlain(s: string, c: char, d: char)
    requires '~' !in s
    ensures Unescape(s, c, d) == s
  {
    if s != "" { UnescapePlain(s[1..], c, d); }
  }

  // "/first/second/<escaped key>" names exactly the location first, second, key.
  lemma {:induction false} PathTokens(first: string, second: string, key: string)
    requires '/' !in first && '~' !in first && '/' !in second && '~' !in second
    ensures Tokens(['/'] + first + ['/'] + second + ['/'] + Escape(key)) == Some([first, second, key])
  {
    var path := ['/'] + first + ['/'] + second + ['/'] + Escape(key);
    var tail := second + ['/'] + Escape(key);
    assert path[1..] == first + ['/'] + tail;
    SplitFirst(first, '/', tail);
    SplitFirst(second, '/', Escape(key));
    DecodeUndoesEscape(key);
    assert Split(path[1..], '/') == [first, second, Escape(key)];
    UnescapePlain(first, '1', '/');
    UnescapePlain(first, '0', '~');
    UnescapePlain(second, '1', '/');
    UnescapePlain(second, '0', '~');
    DecodeThree(first, second, Escape(key));
  }

  lemma {:induction false} DecodeThree(a: string, b: string, c: string)
    ensures DecodeAll([a, b, c]) == [Decode(a), Decode(b), Decode(c)]
  {
    assert [c][1..] == [] && DecodeAll([c]) == [Decode(c)];
    assert [b, c][1..] == [c] && DecodeAll([b, c]) == [Decode(b), Decode(c)];
    assert [a, b, c][1..] == [b, c];
  }
}
