// config/legacyconfig/migrate.go (nextFlagValue and the loop around it): reading legacy command-line flags.
module FlagTokens {
  import opened Common
  import opened Text

  predicate IsFlag(arg: string) {
    |arg| >= 2 && arg[0] == '-' && arg[1] == '-'
  }

  datatype Scan = End | Unexpected | Flag(name: string, value: string, rest: seq<string>)

  function NextFlagValue(args: seq<string>): (scan: Scan)
    ensures scan.Flag? ==> |scan.rest| < |args|
  {
    if args == [] then End
    else if !IsFlag(args[0]) then Unexpected
    else
      var text, rest := args[0][2..], args[1..];
      if '=' in text then Equation(text, rest)
      else if rest != [] && !IsFlag(rest[0]) then Flag(text, rest[0], rest[1..])
      else Flag(text, "", rest)
  }

  // strings.SplitN(text, "=", 2)
  function Equation(text: string, rest: seq<string>): (scan: Scan)
    requires '=' in text
    ensures scan.Flag? && '=' !in scan.name && scan.rest == rest
  {
    var i := Find(text, '=');
    assert i < |text| by { assert text[..|text|] == text; }
    Flag(text[..i], text[i + 1..], rest)
  }

  function Dashed(flag: string): string {
    ['-', '-'] + flag
  }

  // The arguments that one flag may be made of.
  predicate IsWritten(args: seq<string>, scan: Scan)
    requires scan.Flag?
  {
    '=' !in scan.name &&
    (|| args == [Dashed(scan.name + ['='] + scan.value)] + scan.rest
     || (args == [Dashed(scan.name), scan.value] + scan.rest && !IsFlag(scan.value))
     || (args == [Dashed(scan.name)] + scan.rest && scan.value == "" && (scan.rest == [] || IsFlag(scan.rest[0]))))
  }

  /** Scanning takes one flag off the front: what it returns, written in one of three ways, followed by the rest, is
      the argument list; and it ends or fails exactly on no argument or on one that is no flag. */
  lemma {:induction false} ScanTakesOneFlag(args: seq<string>)
    ensures var scan := NextFlagValue(args);
            && (scan.End? <==> args == []) && (scan.Unexpected? <==> args != [] && !IsFlag(args[0]))
            && (scan.Flag? ==> IsWritten(args, scan))
  {
    var scan := NextFlagValue(args);
    if scan.Flag? {
      var text := args[0][2..];
      assert args[0] == Dashed(text) && args == [args[0]] + args[1..];
      if '=' in text {
        EquationIsText(text, args[1..]);
      } else if |args| > 1 {
        assert args == [args[0], args[1]] + args[2..] && args[1..][1..] == args[2..];
      }
    }
  }

  lemma {:induction false} EquationIsText(text: string, rest: seq<string>)
    requires '=' in text
    ensures Equation(text, rest).name + ['='] + Equation(text, rest).value == text
  {
  }

  datatype Pair = Pair(flag: string, value: string)

  // The pairs the loop sees; it stops at an empty flag name, and None is its error.
  function Tokenize(args: seq<string>): Option<seq<Pair>>
    decreases |args|
  {
    match NextFlagValue(args)
    case End => Some([])
    case Unexpected => None
    case Flag(name, value, rest) =>
      if name == "" then Some([])
      else
        var more := Tokenize(rest);
        if more.None? then None else Some([Pair(name, value)] + more.value)
  }

  // ---- writing flags ----

  datatype Style = Equals | Spaced | Bare

  datatype Item = Item(flag: string, value: string, style: Style)

  function RenderItem(item: Item): seq<string> {
    match item.style
    case Equals => [Dashed(item.flag + ['='] + item.value)]
    case Spaced => [Dashed(item.flag), item.value]
    case Bare => [Dashed(item.flag)]
  }

  function Render(items: seq<Item>): seq<string> {
    if items == [] then [] else RenderItem(items[0]) + Render(items[1..])
  }

  function Meaning(item: Item): Pair {
    Pair(item.flag, if item.style == Bare then "" else item.value)
  }

  function Meanings(items: seq<Item>): seq<Pair> {
    if items == [] then [] else [Meaning(items[0])] + Meanings(items[1..])
  }

  predicate WellFormed(item: Item) {
    item.flag != "" && '=' !in item.flag && (item.style == Spaced ==> !IsFlag(item.value))
  }

  lemma {:induction false} RenderStartsWithFlag(items: seq<Item>)
    ensures Render(items) == [] || IsFlag(Render(items)[0])
  {
  }

  lemma {:induction false} ScanEquals(item: Item, rest: seq<string>)
    requires item.style == Equals && '=' !in item.flag
    ensures NextFlagValue(RenderItem(item) + rest) == Flag(item.flag, item.value, rest)
  {
    var args, text := RenderItem(item) + rest, item.flag + ['='] + item.value;
    assert args[1..] == rest && args[0][2..] == text;
    assert text[..|item.flag|] == item.flag && text[|item.flag| + 1..] == item.value;
    assert text[|item.flag|] == '=';
    FindAt(text, '=', |item.flag|);
  }

  lemma {:induction false} ScanSpaced(item: Item, rest: seq<string>)
    requires item.style == Spaced && '=' !in item.flag
    ensures NextFlagValue(RenderItem(item) + rest) ==
              if IsFlag(item.value) then Flag(item.flag, "", [item.value] + rest) else Flag(item.flag, item.value, rest)
  {
    var args := RenderItem(item) + rest;
    assert args[0] == Dashed(item.flag) && args[0][2..] == item.flag;
    assert args[1..] == [item.value] + rest && ([item.value] + rest)[1..] == rest;
  }

  lemma {:induction false} ScanBare(item: Item, rest: seq<string>)
    requires item.style == Bare && '=' !in item.flag && (rest == [] || IsFlag(rest[0]))
    ensures NextFlagValue(RenderItem(item) + rest) == Flag(item.flag, "", rest)
  {
    var args := RenderItem(item) + rest;
    assert args[0] == Dashed(item.flag) && args[0][2..] == item.flag && args[1..] == rest;
  }

  lemma {:induction false} ScanHead(item: Item, rest: seq<string>)
    requires WellFormed(item) && (rest == [] || IsFlag(rest[0]))
    ensures NextFlagValue(RenderItem(item) + rest) == Flag(item.flag, Meaning(item).value, rest)
  {
    match item.style
    case Equals => ScanEquals(item, rest);
    case Spaced => ScanSpaced(item, rest);
    case Bare => ScanBare(item, rest);
  }

  // A head that is not well formed is never read back.
  lemma {:induction false} ScanBadHead(item: Item, rest: seq<string>)
    requires !WellFormed(item) && (rest == [] || IsFlag(rest[0]))
    ensures var scan := NextFlagValue(RenderItem(item) + rest);
            scan.Flag? && (scan.name != item.flag || scan.name == "" || scan.value != Meaning(item).value)
  {
    if '=' in item.flag {
      var args := RenderItem(item) + rest;
      assert args[0][..2] == ['-', '-'] && args[0][2..][..|item.flag|] == item.flag;
      assert '=' in args[0][2..] by {
        var i :| 0 <= i < |item.flag| && item.flag[i] == '=';
        assert args[0][2..][i] == '=';
      }
    } else {
      match item.style
      case Equals => ScanEquals(item, rest);
      case Spaced => ScanSpaced(item, rest);
      case Bare => ScanBare(item, rest);
    }
  }

  /** Flags rendered in any mix of styles are read back, in order, exactly when every item is well formed. */
  lemma {:induction false} TokenizeUndoesRenderIff(items: seq<Item>)
    ensures Tokenize(Render(items)) == Some(Meanings(items)) <==> forall i :: 0 <= i < |items| ==> WellFormed(items[i])
  {
    if items != [] {
      var rest := Render(items[1..]);
      RenderStartsWithFlag(items[1..]);
      TokenizeUndoesRenderIff(items[1..]);
      if WellFormed(items[0]) {
        ScanHead(items[0], rest);
        Cons(items);
        var more := Tokenize(rest);
        assert more.Some? ==> [Meaning(items[0])] + more.value == Meanings(items) ==>
            more.value == Meanings(items)[1..];
        assert Meanings(items)[1..] == Meanings(items[1..]);
      } else {
        ScanBadHead(items[0], rest);
        assert Meanings(items)[0] == Meaning(items[0]);
      }
    }
  }

  lemma {:induction false} Cons(items: seq<Item>)
    requires items != []
    ensures (forall i :: 0 <= i < |items| ==> WellFormed(items[i])) <==>
              WellFormed(items[0]) && forall i :: 0 <= i < |items[1..]| ==> WellFormed(items[1..][i])
  {
    assert forall i :: 1 <= i < |items| ==> items[i] == items[1..][i - 1];
  }
}
