// config/legacyconfig/migrate.go, config/config.go and pkg/config/config.go: the four legacy flags about exporting the
// kubeconfig, migrated to the new configuration and rendered back as legacy options.
module KubeConfigFlags {
  import opened Common
  import opened FlagTokens

  const CONTEXT := "kube-config-context-name"
  const SERVER := "out-kube-config-server"
  const SECRET := "out-kube-config-secret"
  const NAMESPACE := "out-kube-config-secret-namespace"

  predicate IsExportFlag(flag: string) {
    flag == CONTEXT || flag == SERVER || flag == SECRET || flag == NAMESPACE
  }

  datatype SecretRef = SecretRef(name: string, namespace: string)

  datatype Additional = Additional(context: string, server: string, name: string, namespace: string)

  const NO_SECRET := SecretRef("", "")
  const BLANK := Additional("", "", "", "")

  // ExportKubeConfig; secret is the deprecated form of additional.
  datatype Export = Export(context: string, server: string, secret: SecretRef, additional: seq<Additional>)

  type Flags = map<string, string>

  function Get(flags: Flags, flag: string, otherwise: string): string {
    if flag in flags then flags[flag] else otherwise
  }

  predicate SetsSecret(flags: Flags) {
    SECRET in flags || NAMESPACE in flags
  }

  function UpdatedSecret(flags: Flags, a: Additional): Additional {
    Additional(Get(flags, CONTEXT, a.context), Get(flags, SERVER, a.server),
               Get(flags, SECRET, a.name), Get(flags, NAMESPACE, a.namespace))
  }

  // What migrateExportKubeConfigFlags makes of the configuration.
  function Migrated(flags: Flags, e: Export): Export {
    var additional :=
      if !SetsSecret(flags) then e.additional
      else if e.additional == [] then [UpdatedSecret(flags, BLANK)]
      else e.additional[0 := UpdatedSecret(flags, e.additional[0])];
    e.(context := Get(flags, CONTEXT, e.context), server := Get(flags, SERVER, e.server), additional := additional)
  }

  // The additional secrets after the first two flags.
  function Named(flags: Flags, additional: seq<Additional>): seq<Additional> {
    if !SetsSecret(flags) then additional
    else
      var first := if additional == [] then BLANK else additional[0];
      var named := first.(name := Get(flags, SECRET, first.name), namespace := Get(flags, NAMESPACE, first.namespace));
      if additional == [] then [named] else additional[0 := named]
  }

  function WithProperties(flags: Flags, e: Export, setAdditionalSecret: bool): Export
    requires setAdditionalSecret ==> e.additional != []
  {
    var additional :=
      if !setAdditionalSecret then e.additional
      else
        var first := e.additional[0];
        e.additional[0 := first.(context := Get(flags, CONTEXT, first.context),
                                 server := Get(flags, SERVER, first.server))];
    e.(context := Get(flags, CONTEXT, e.context), server := Get(flags, SERVER, e.server), additional := additional)
  }

  predicate NoneEmpty(flags: Flags) {
    forall flag :: flag in flags ==> flags[flag] != ""
  }

  // Flags are handled in this order, up to the first that is empty.
  function Handled(flags: Flags): Flags {
    if SECRET in flags && flags[SECRET] == "" then map[]
    else if NAMESPACE in flags && flags[NAMESPACE] == "" then flags - {NAMESPACE, CONTEXT, SERVER}
    else HandledProperties(flags)
  }

  function HandledProperties(flags: Flags): Flags {
    if CONTEXT in flags && flags[CONTEXT] == "" then flags - {CONTEXT, SERVER}
    else if SERVER in flags && flags[SERVER] == "" then flags - {SERVER}
    else flags
  }

  // The configuration being written: the export settings, and everything that the other flags set.
  class NewConfig<C> {
    var settings: Export
    var others: C

    constructor (e: Export, others: C)
      ensures settings == e && this.others == others
    {
      settings, this.others := e, others;
    }

    method EnsureAdditionalSecretIsSet()
      modifies `settings
      ensures settings ==
                old(settings).(additional := if old(settings).additional == [] then [BLANK]
                                             else old(settings).additional)
    {
      if |settings.additional| == 0 {
        settings := settings.(additional := [BLANK]);
      }
    }

    // The name and namespace of the additional secret.
    method MigrateSecretFlags(flags: Flags) returns (ok: bool, setAdditionalSecret: bool)
      modifies `settings
      ensures ok <==> !(SECRET in flags && flags[SECRET] == "") && !(NAMESPACE in flags && flags[NAMESPACE] == "")
      ensures ok ==> setAdditionalSecret == SetsSecret(flags)
      ensures settings == old(settings).(additional := Named(Handled(flags), old(settings).additional))
    {
      setAdditionalSecret := false;
      if SECRET in flags {
        if flags[SECRET] == "" { return false, false; }
        EnsureAdditionalSecretIsSet();
        var first := settings.additional[0].(name := flags[SECRET]);
        settings := settings.(additional := settings.additional[0 := first]);
        setAdditionalSecret := true;
      }
      if NAMESPACE in flags {
        if flags[NAMESPACE] == "" { return false, false; }
        EnsureAdditionalSecretIsSet();
        var first := settings.additional[0].(namespace := flags[NAMESPACE]);
        settings := settings.(additional := settings.additional[0 := first]);
        setAdditionalSecret := true;
      }
      ok := true;
    }

    // The context and server, copied into the additional secret if it is set.
    method MigratePropertyFlags(flags: Flags, setAdditionalSecret: bool) returns (ok: bool)
      requires setAdditionalSecret ==> settings.additional != []
      modifies `settings
      ensures ok <==> !(CONTEXT in flags && flags[CONTEXT] == "") && !(SERVER in flags && flags[SERVER] == "")
      ensures settings == WithProperties(HandledProperties(flags), old(settings), setAdditionalSecret)
    {
      if CONTEXT in flags {
        if flags[CONTEXT] == "" { return false; }
        settings := settings.(context := flags[CONTEXT]);
        if setAdditionalSecret {
          var first := settings.additional[0].(context := flags[CONTEXT]);
          settings := settings.(additional := settings.additional[0 := first]);
        }
      }
      if SERVER in flags {
        if flags[SERVER] == "" { return false; }
        settings := settings.(server := flags[SERVER]);
        if setAdditionalSecret {
          var first := settings.additional[0].(server := flags[SERVER]);
          settings := settings.(additional := settings.additional[0 := first]);
        }
      }
      ok := true;
    }

    method MigrateExportKubeConfigFlags(flags: Flags) returns (ok: bool)
      requires forall flag :: flag in flags ==> IsExportFlag(flag)
      modifies `settings
      ensures ok <==> NoneEmpty(flags)
      ensures settings == Migrated(Handled(flags), old(settings)) && (ok ==> settings == Migrated(flags, old(settings)))
    {
      var setAdditionalSecret;
      ok, setAdditionalSecret := MigrateSecretFlags(flags);
      if !ok {
        return;
      }
      ok := MigratePropertyFlags(flags, setAdditionalSecret);
    }

    /** convertSyncerExtraArgs: the export flags are collected and migrated together at the end. When it fails, seen
        are the flags it had taken in: the others are applied, and the export flags only if the arguments were read
        through. */
    method ConvertSyncerExtraArgs(args: seq<string>, migrateFlag: (string, string, C) -> Option<C>)
      returns (ok: bool, ghost seen: seq<Pair>)
      modifies this
      ensures var result := Convert(args, old(settings), old(others), migrateFlag);
              (ok <==> result.Some?) && (ok ==> (settings, others) == result.value)
      ensures Others(seen, old(others), migrateFlag) == Some(others)
      ensures Tokenize(args).Some? ==> seen <= Tokenize(args).value
      ensures settings ==
                if Tokenize(args) == Some(seen) then Migrated(Handled(Used(seen)), old(settings)) else old(settings)
    {
      var rest, used := args, map[];
      seen := [];
      assert Tokenize(args).Some? ==> seen + Tokenize(args).value == Tokenize(args).value;
      while true
        invariant Tokenize(args) == if Tokenize(rest).None? then None else Some(seen + Tokenize(rest).value)
        invariant used == Used(seen) && Others(seen, old(others), migrateFlag) == Some(others)
        invariant settings == old(settings)
        decreases |rest|
      {
        var scan := NextFlagValue(rest);
        if scan.Unexpected? {
          return false, seen;
        }
        if scan.End? || scan.name == "" {
          break;
        }
        ghost var token := Pair(scan.name, scan.value);
        ExtendTokens(args, rest, seen);
        ExtendUsed(seen, token);
        ExtendOthers(seen, token, old(others), migrateFlag);
        if IsExportFlag(scan.name) {
          used := used[scan.name := scan.value];
        } else {
          var result := migrateFlag(scan.name, scan.value, others);
          if result.None? {
            if Tokenize(args).Some? {
              FailureStays(seen + [token], Tokenize(scan.rest).value, old(others), migrateFlag);
            }
            return false, seen;
          }
          others := result.value;
        }
        rest, seen := scan.rest, seen + [token];
      }
      UsedAreExport(seen);
      assert seen + [] == seen;
      ok := MigrateExportKubeConfigFlags(used);
    }
  }

  // ---- the meaning of an argument list ----

  // The export flags among the tokens; a later one overwrites an earlier one.
  function Used(tokens: seq<Pair>): Flags {
    if tokens == [] then map[]
    else
      var before, last := Used(tokens[..|tokens| - 1]), tokens[|tokens| - 1];
      if IsExportFlag(last.flag) then before[last.flag := last.value] else before
  }

  // All the other flags, applied in order.
  function Others<C>(tokens: seq<Pair>, c: C, migrateFlag: (string, string, C) -> Option<C>): Option<C> {
    if tokens == [] then Some(c)
    else
      var before, last := Others(tokens[..|tokens| - 1], c, migrateFlag), tokens[|tokens| - 1];
      if before.None? || IsExportFlag(last.flag) then before else migrateFlag(last.flag, last.value, before.value)
  }

  function Convert<C>(args: seq<string>, e: Export, c: C,
                      migrateFlag: (string, string, C) -> Option<C>): Option<(Export, C)> {
    var tokens := Tokenize(args);
    if tokens.None? then None
    else
      var others := Others(tokens.value, c, migrateFlag);
      if others.None? || !NoneEmpty(Used(tokens.value)) then None
      else Some((Migrated(Used(tokens.value), e), others.value))
  }

  lemma {:induction false} UsedAreExport(tokens: seq<Pair>)
    ensures forall flag :: flag in Used(tokens) ==> IsExportFlag(flag)
  {
    if tokens != [] { UsedAreExport(tokens[..|tokens| - 1]); }
  }

  lemma {:induction false} FailureStays<C>(tokens: seq<Pair>, more: seq<Pair>, c: C,
                                           migrateFlag: (string, string, C) -> Option<C>)
    requires Others(tokens, c, migrateFlag).None?
    ensures Others(tokens + more, c, migrateFlag).None?
    decreases |more|
  {
    if more == [] {
      assert tokens + more == tokens;
    } else {
      assert (tokens + more)[..|tokens + more| - 1] == tokens + more[..|more| - 1];
      FailureStays(tokens, more[..|more| - 1], c, migrateFlag);
    }
  }

  // One turn of the loop: the tokens, the collected export flags and the other settings.
  lemma {:induction false} ExtendTokens(args: seq<string>, rest: seq<string>, seen: seq<Pair>)
    requires Tokenize(args) == if Tokenize(rest).None? then None else Some(seen + Tokenize(rest).value)
    requires NextFlagValue(rest).Flag? && NextFlagValue(rest).name != ""
    ensures var scan := NextFlagValue(rest);
            var now := seen + [Pair(scan.name, scan.value)];
            Tokenize(args) == if Tokenize(scan.rest).None? then None else Some(now + Tokenize(scan.rest).value)
  {
    var scan := NextFlagValue(rest);
    if Tokenize(scan.rest).Some? {
      var token, more := Pair(scan.name, scan.value), Tokenize(scan.rest).value;
      assert seen + ([token] + more) == seen + [token] + more;
    }
  }

  lemma {:induction false} ExtendUsed(seen: seq<Pair>, token: Pair)
    ensures Used(seen + [token]) ==
              if IsExportFlag(token.flag) then Used(seen)[token.flag := token.value] else Used(seen)
  {
    assert (seen + [token])[..|seen + [token]| - 1] == seen;
  }

  lemma {:induction false} ExtendOthers<C>(seen: seq<Pair>, token: Pair, c: C,
                                           migrateFlag: (string, string, C) -> Option<C>)
    requires Others(seen, c, migrateFlag).Some?
    ensures Others(seen + [token], c, migrateFlag) ==
              if IsExportFlag(token.flag) then Others(seen, c, migrateFlag)
              else migrateFlag(token.flag, token.value, Others(seen, c, migrateFlag).value)
  {
    assert (seen + [token])[..|seen + [token]| - 1] == seen;
  }

  // ---- rendering legacy options ----

  function GetAdditionalSecrets(e: Export): seq<Additional> {
    if e.secret != NO_SECRET then [Additional(e.context, e.server, e.secret.name, e.secret.namespace)] else e.additional
  }

  // The kubeconfig fields of LegacyOptions.
  function LegacyOptions(e: Export): Additional {
    var secrets := GetAdditionalSecrets(e);
    if secrets == [] then BLANK else secrets[0]
  }

  // What the tokens say about a flag: its last value, or nothing.
  function LastValue(tokens: seq<Pair>, flag: string): Option<string> {
    if tokens == [] then None
    else if tokens[|tokens| - 1].flag == flag then Some(tokens[|tokens| - 1].value)
    else LastValue(tokens[..|tokens| - 1], flag)
  }

  predicate Given(tokens: seq<Pair>, flag: string) {
    LastValue(tokens, flag).Some?
  }

  function ValueOf(tokens: seq<Pair>, flag: string): string {
    match LastValue(tokens, flag) case Some(value) => value case None => ""
  }

  lemma {:induction false} UsedIsLast(tokens: seq<Pair>, flag: string)
    requires IsExportFlag(flag)
    ensures flag in Used(tokens) <==> Given(tokens, flag)
    ensures flag in Used(tokens) ==> Used(tokens)[flag] == ValueOf(tokens, flag)
  {
    if tokens != [] { UsedIsLast(tokens[..|tokens| - 1], flag); }
  }

  /** The four settings, however written and wherever they stand among other flags, survive migration and rendering
      exactly when a secret flag is given or neither of the other two is. */
  lemma {:induction false} SettingsSurviveIff<C>(items: seq<Item>, e: Export, c: C,
                                                 migrateFlag: (string, string, C) -> Option<C>)
    requires forall i :: 0 <= i < |items| ==> WellFormed(items[i])
    requires e.secret == NO_SECRET && e.additional == []
    requires Convert(Render(items), e, c, migrateFlag).Some?
    ensures var tokens := Meanings(items);
            var (migrated, _) := Convert(Render(items), e, c, migrateFlag).value;
            LegacyOptions(migrated) ==
              Additional(ValueOf(tokens, CONTEXT), ValueOf(tokens, SERVER),
                         ValueOf(tokens, SECRET), ValueOf(tokens, NAMESPACE))
            <==> Given(tokens, SECRET) || Given(tokens, NAMESPACE) || !(Given(tokens, CONTEXT) || Given(tokens, SERVER))
  {
    TokenizeUndoesRenderIff(items);
    var tokens := Meanings(items);
    UsedIsLast(tokens, CONTEXT);
    UsedIsLast(tokens, SERVER);
    UsedIsLast(tokens, SECRET);
    UsedIsLast(tokens, NAMESPACE);
  }

  /** Conversion succeeds exactly when the other flags migrate and no export flag ends up empty. */
  lemma {:induction false} ConvertSucceedsIff<C>(items: seq<Item>, e: Export, c: C,
                                                 migrateFlag: (string, string, C) -> Option<C>)
    requires forall i :: 0 <= i < |items| ==> WellFormed(items[i])
    ensures Convert(Render(items), e, c, migrateFlag).Some? <==>
              && Others(Meanings(items), c, migrateFlag).Some?
              && forall flag :: IsExportFlag(flag) && Given(Meanings(items), flag) ==>
                   ValueOf(Meanings(items), flag) != ""
  {
    TokenizeUndoesRenderIff(items);
    UsedAreExport(Meanings(items));
    forall flag | IsExportFlag(flag)
      ensures flag in Used(Meanings(items)) <==> Given(Meanings(items), flag)
      ensures flag in Used(Meanings(items)) ==> Used(Meanings(items))[flag] == ValueOf(Meanings(items), flag)
    {
      UsedIsLast(Meanings(items), flag);
    }
  }

  lemma {:induction false} OneToken<C>(item: Item, c: C, migrateFlag: (string, string, C) -> Option<C>)
    requires IsExportFlag(item.flag)
    ensures Meanings([item]) == [Meaning(item)] && Used([Meaning(item)]) == map[item.flag := Meaning(item).value]
    ensures Others([Meaning(item)], c, migrateFlag) == Some(c)
  {
    assert [item][1..] == [] && [Meaning(item)][..0] == [];
  }

  lemma {:induction false} ContextSetsNoSecret(flags: Flags, e: Export, value: string)
    requires flags == map[CONTEXT := value] && e.secret == NO_SECRET && e.additional == []
    ensures Migrated(flags, e).context == value && LegacyOptions(Migrated(flags, e)).context == ""
  {
    assert |CONTEXT| == 24 && |SECRET| == 22 && |NAMESPACE| == 32;
  }

  /** A context alone does not survive: it reaches the new configuration, but no legacy option. */
  lemma {:induction false} ContextAloneIsLost<C>(items: seq<Item>, value: string, e: Export, c: C,
                                                 migrateFlag: (string, string, C) -> Option<C>)
    requires items == [Item(CONTEXT, value, Equals)] && value != "" && e.secret == NO_SECRET && e.additional == []
    ensures var result := Convert(Render(items), e, c, migrateFlag);
            result.Some? && result.value.0.context == value && LegacyOptions(result.value.0).context == ""
  {
    OneToken(items[0], c, migrateFlag);
    assert items == [items[0]];
    ContextIsWellFormed(items[0]);
    TokenizeUndoesRenderIff(items);
    ContextSetsNoSecret(map[CONTEXT := value], e, value);
  }

  lemma {:induction false} ContextIsWellFormed(item: Item)
    requires item.flag == CONTEXT && item.style == Equals
    ensures WellFormed(item)
  {
    assert '=' !in CONTEXT;
  }
}
