/** restoreConfiguredClient: the tree restore with each agent's credential group kept indivisible. */
module CredentialGroups {
  import opened Wrappers
  import opened ConfigTree
  import opened NamedProviders
  import opened ClientRestore

  const CLAUDE_GROUP: seq<Path> := [
    ["apiKeyHelper"], ["env", "ANTHROPIC_BASE_URL"], ["env", "ANTHROPIC_AUTH_TOKEN"], ["env", "ANTHROPIC_API_KEY"],
    ["env", "CLAUDE_CODE_USE_BEDROCK"], ["env", "CLAUDE_CODE_USE_VERTEX"], ["env", "CLAUDE_CODE_USE_FOUNDRY"]]

  const HERMES_GROUP: seq<Path> := [
    ["model", "provider"], ["model", "base_url"], ["model", "api_key"], ["model", "api_mode"]]

  /** The endpoint, the credential and whatever selects them; no group for the other agents. */
  function Group(agent: string): seq<Path> {
    if agent == "claude" then CLAUDE_GROUP
    else if agent == "hermes" then HERMES_GROUP
    else []
  }

  predicate TextModel(agent: string, doc: Doc) {
    agent == "hermes" && "model" in doc && doc["model"].Leaf? && doc["model"].scalar.Text?
  }

  /** Hermes accepts a bare model name; it stands for a model table with only a default. */
  function Normalized(agent: string, before: Doc): Doc {
    if TextModel(agent, before) then before["model" := Table(map["default" := before["model"]])] else before
  }

  predicate Matches(current: Doc, after: Doc, group: seq<Path>)
  {
    forall m | m in group :: At(current, m) == At(after, m)
  }

  function Mask(doc: Doc, group: seq<Path>): Doc
  {
    if group == [] then doc else DeleteAt(Mask(doc, group[..|group|-1]), group[|group|-1])
  }

  ghost function Configured(agent: string, current: Doc, before: Doc, after: Doc): Doc {
    var b, group := Normalized(agent, before), Group(agent);
    if Matches(current, after, group) then Restore(current, b, after, "")
    else Restore(current, Mask(b, group), Mask(after, group), "")
  }

  method RestoreConfiguredClient(agent: string, current: Doc, before: Doc, after: Doc) returns (restored: Doc)
    ensures restored == Configured(agent, current, before, after)
  {
    hide Group;
    hide Restore;
    hide Normalized;
    hide DeleteAt;
    hide At;
    var group := Group(agent);
    var b, a := Normalized(agent, before), after;
    var matches := true;
    var i := 0;
    while i < |group| && matches
      invariant i <= |group|
      invariant matches <==> Matches(current, after, group[..i])
    {
      var c := ConfigValue(current, group[i]);
      var v := ConfigValue(after, group[i]);
      matches := c == v;
      i := i + 1;
    }
    assert matches ==> group[..i] == group;
    assert !matches ==> !Matches(current, after, group) by {
      assert forall m | m in group[..i] :: m in group;
    }
    if !matches {
      for j := 0 to |group|
        invariant b == Mask(Normalized(agent, before), group[..j]) && a == Mask(after, group[..j])
      {
        b := DeleteAt(b, group[j]);
        a := DeleteAt(a, group[j]);
        assert group[..j+1][..j] == group[..j];
      }
      assert group[..|group|] == group;
    }
    restored := RestoreClientConfig(current, b, a, "");
  }

  // ---------- What masking does to a snapshot ----------

  lemma {:induction false} MaskAt(doc: Doc, group: seq<Path>, p: Path)
    ensures (exists m | m in group :: m <= p) ==> At(Mask(doc, group), p).None?
    ensures (forall m | m in group :: !(m <= p)) ==>
            At(Mask(doc, group), p) == At(doc, p) || (IsTable(At(doc, p)) && IsTable(At(Mask(doc, group), p)))
    ensures (forall m | m in group :: !(m <= p) && !(p <= m)) ==> At(Mask(doc, group), p) == At(doc, p)
  {
    if group != [] {
      var rest, last := group[..|group|-1], group[|group|-1];
      assert group == rest + [last];
      assert last in group && forall m | m in rest :: m in group;
      MaskAt(doc, rest, p);
      if last <= p {
        DeleteRemoves(Mask(doc, rest), last, p);
      } else {
        DeleteKeeps(Mask(doc, rest), last, p);
      }
      if At(Mask(doc, rest), p).None? {
        DeleteKeepsAbsent(Mask(doc, rest), last, p);
      }
    }
  }

  /** The tables that members of the group stand in. */
  function Tables(agent: string): set<string> {
    if agent == "claude" then {"env"} else if agent == "hermes" then {"model"} else {}
  }

  predicate GroupPath(m: Path) {
    m == ["apiKeyHelper"] || (|m| == 2 && (m[0] == "env" || m[0] == "model"))
  }

  lemma GroupPaths(agent: string, m: Path)
    requires m in Group(agent)
    ensures GroupPath(m) && (|m| == 2 ==> m[0] in Tables(agent))
  {
    if agent == "claude" {
      var i :| 0 <= i < |CLAUDE_GROUP| && CLAUDE_GROUP[i] == m;
      assert i == 0 || CLAUDE_GROUP[i][0] == "env";
    } else {
      var i :| 0 <= i < |HERMES_GROUP| && HERMES_GROUP[i] == m;
      assert HERMES_GROUP[i][0] == "model";
    }
  }

  lemma GroupPathAvoidsNamed(m: Path)
    requires GroupPath(m)
    ensures AvoidsNamed("", m) && m[0] != "" && m[0] != NAMED_PROVIDERS
  {
    assert NAMED_PROVIDERS[0] == 'c' && "env"[0] == 'e' && "model"[0] == 'm' && "apiKeyHelper"[0] == 'a';
  }

  // ---------- The group is indivisible ----------

  /** One edited member freezes the whole group: no member is changed, added or removed. */
  lemma EditedGroupUntouched(agent: string, current: Doc, before: Doc, after: Doc, m: Path)
    requires m in Group(agent) && !Matches(current, after, Group(agent))
    ensures At(Configured(agent, current, before, after), m) == At(current, m)
  {
    var group := Group(agent);
    GroupPaths(agent, m);
    GroupPathAvoidsNamed(m);
    MaskAt(Normalized(agent, before), group, m);
    MaskAt(after, group, m);
    UnmentionedUntouched(current, Mask(Normalized(agent, before), group), Mask(after, group), "", m);
  }

  /** The members below one table go back entry by entry when it is a table or absent everywhere and the user did not
      delete it, and whole when it is as installed; otherwise it stays, and must hold the original members. */
  ghost predicate MembersGoBack(current: Doc, before: Doc, after: Doc, group: seq<Path>, table: string) {
    var b, a, c := Get(before, table), Get(after, table), Get(current, table);
    || (TableOrAbsent(c) && TableOrAbsent(b) && TableOrAbsent(a) && (c.None? ==> a.None?))
    || c == a
    || forall m | m in group && |m| == 2 && m[0] == table :: At(current, m) == At(before, m)
  }

  /** An edited group stays as it is; an unedited one goes back to the original as a whole, if and only if its members
      below env or model do. */
  lemma GroupGoesBackExactly(agent: string, current: Doc, before: Doc, after: Doc)
    ensures var r, b, group := Configured(agent, current, before, after), Normalized(agent, before), Group(agent);
            && (!Matches(current, after, group) ==> Matches(r, current, group))
            && (Matches(current, after, group) ==>
                  (Matches(r, b, group)
                   <==> forall t | t in Tables(agent) :: MembersGoBack(current, b, after, group, t)))
  {
    var r, b, group := Configured(agent, current, before, after), Normalized(agent, before), Group(agent);
    if Matches(current, after, group) {
      forall m | m in group
        ensures |m| == 1 ==> At(r, m) == At(b, m)
        ensures |m| == 2 ==> m[0] in Tables(agent)
        ensures |m| == 2 ==> At(r, m) == if Undecided(current, b, after, m[0]) then At(current, m) else At(b, m)
      {
        GroupPaths(agent, m);
        MemberGoesBack(current, b, after, m);
      }
      forall m | m in group ensures |m| == 1 || |m| == 2 {
        GroupPaths(agent, m);
      }
      hide At;
      hide Configured;
      hide Group;
      hide Normalized;
      forall t | t in Tables(agent)
        ensures MembersGoBack(current, b, after, group, t)
                <==> || !Undecided(current, b, after, t)
                     || forall m | m in group && |m| == 2 && m[0] == t :: At(current, m) == At(b, m)
      {
      }
    } else {
      forall m | m in group ensures At(r, m) == At(current, m) {
        EditedGroupUntouched(agent, current, before, after, m);
      }
    }
  }

  /** The table is neither walked nor as installed, so it stays as the user left it. */
  predicate Undecided(current: Doc, before: Doc, after: Doc, table: string) {
    var b, a, c := Get(before, table), Get(after, table), Get(current, table);
    !(TableOrAbsent(c) && TableOrAbsent(b) && TableOrAbsent(a) && (c.None? ==> a.None?)) && c != a
  }

  lemma MemberGoesBack(current: Doc, before: Doc, after: Doc, m: Path)
    requires GroupPath(m) && At(current, m) == At(after, m)
    ensures At(Restore(current, before, after, ""), m)
         == if |m| == 2 && Undecided(current, before, after, m[0]) then At(current, m) else At(before, m)
  {
    hide Restore;
    var r := Restore(current, before, after, "");
    var t := m[0];
    GroupPathAvoidsNamed(m);
    if |m| == 2 {
      var sub := Extend("", t);
      assert Reached(Sub(Get(current, t)), Sub(Get(before, t)), Sub(Get(after, t)), sub, m[1..]);
    }
    if |m| == 1 || Reached(current, before, after, "", m) {
      UneditedGoesBack(current, before, after, "", m);
      assert |m| == 2 ==> !Undecided(current, before, after, t);
    } else {
      RestoreAt(current, before, after, "", t);
      PlainKey(current, before, after, "", t);
    }
  }

  const HELPER: Path := ["apiKeyHelper"]

  const API_KEY: Path := ["env", "ANTHROPIC_API_KEY"]

  /** The input on which an unedited group goes back only in part. No installer writes it: the installed env holds no
      member of the group. The user deletes env; the helper goes back, the key beside it does not. */
  lemma GroupGoesBackInPart()
    ensures var before: Doc := map["apiKeyHelper" := Leaf(Text("old")),
                                   "env" := Table(map["ANTHROPIC_API_KEY" := Leaf(Text("old"))])];
            var after: Doc := map["env" := Table(map["X" := Leaf(Text("x"))])];
            var r := Configured("claude", map[], before, after);
            && HELPER in Group("claude") && API_KEY in Group("claude")
            && Matches(map[], after, Group("claude")) && !InstallsGroup("claude", before, after)
            && At(r, HELPER) == At(before, HELPER) != None
            && At(r, API_KEY).None? && At(before, API_KEY).Some?
  {
    hide Restore;
    hide Mask;
    var env := map["ANTHROPIC_API_KEY" := Leaf(Text("old"))];
    var before: Doc := map["apiKeyHelper" := Leaf(Text("old")), "env" := Table(env)];
    var after: Doc := map["env" := Table(map["X" := Leaf(Text("x"))])];
    assert CLAUDE_GROUP[0] == HELPER && CLAUDE_GROUP[3] == API_KEY;
    assert API_KEY[1..] == ["ANTHROPIC_API_KEY"];
    forall m | m in Group("claude") ensures At(map[], m).None? && At(after, m).None? {
      ClaudeMember(m);
      if |m| == 2 {
        AtEntry(after, m);
      }
    }
    assert "env" in Tables("claude");
    RestoreAt(map[], before, after, "", "apiKeyHelper");
    RestoreAt(map[], before, after, "", "env");
    assert NAMED_PROVIDERS[0] == 'c';
    PlainKey(map[], before, after, "", "env");
    MemberGoesBack(map[], before, after, HELPER);
  }

  lemma ClaudeMember(m: Path)
    requires m in Group("claude")
    ensures m == HELPER || (|m| == 2 && m[1] != "X")
  {
    var i :| 0 <= i < |CLAUDE_GROUP| && CLAUDE_GROUP[i] == m;
    assert i == 0 || |CLAUDE_GROUP[i][1]| > 1;
  }

  lemma AtEntry(doc: Doc, m: Path)
    requires |m| == 2
    ensures At(doc, m) == Get(Sub(Get(doc, m[0])), m[1])
  {
  }

  /** What an installer leaves: below every table of the group some member is set, and there was a table or nothing. */
  ghost predicate InstallsGroup(agent: string, before: Doc, after: Doc) {
    forall t | t in Tables(agent) ::
      && TableOrAbsent(Get(Normalized(agent, before), t))
      && exists m :: m in Group(agent) && |m| == 2 && m[0] == t && At(after, m).Some?
  }

  /** So after any edits, whole tables deleted or replaced included, the restored group is entirely the original one or
      entirely the current one. */
  lemma GroupNeverMixes(agent: string, current: Doc, before: Doc, after: Doc)
    requires InstallsGroup(agent, before, after)
    ensures var r := Configured(agent, current, before, after);
            if Matches(current, after, Group(agent))
            then Matches(r, Normalized(agent, before), Group(agent))
            else Matches(r, current, Group(agent))
  {
    var b, group := Normalized(agent, before), Group(agent);
    GroupGoesBackExactly(agent, current, before, after);
    hide Configured;
    hide Normalized;
    hide Group;
    hide At;
    hide Matches;
    if Matches(current, after, group) {
      forall t | t in Tables(agent) ensures MembersGoBack(current, b, after, group, t) {
        var m :| m in group && |m| == 2 && m[0] == t && At(after, m).Some?;
        InstalledTableWalked(current, after, group, m);
      }
    }
  }

  /** A table that still holds an installed member was not deleted. */
  lemma InstalledTableWalked(current: Doc, after: Doc, group: seq<Path>, m: Path)
    requires Matches(current, after, group) && m in group && |m| == 2 && At(after, m).Some?
    ensures IsTable(Get(after, m[0])) && IsTable(Get(current, m[0]))
  {
    assert At(current, m) == At(after, m);
  }

  // ---------- The tree laws, with groups ----------

  /** Undo: exact unless the original named its Hermes model by a bare string, which comes back as a table. */
  lemma ConfiguredUndoesInstall(agent: string, before: Doc, after: Doc)
    ensures Configured(agent, after, before, after) == before
            <==> !TextModel(agent, before) && NamedUndone(before, after, "")
  {
    var b := Normalized(agent, before);
    RestoreUndoesInstall(b, after, "");
    if TextModel(agent, before) {
      UndoKey(b, after, "", "model");
      RestoreAt(after, b, after, "", "model");
      assert Get(b, "model") != Get(before, "model");
    }
  }

  /** Every user edit survives, inside and outside the group. */
  lemma ConfiguredEditsSurvive(agent: string, current: Doc, before: Doc, after: Doc, p: Path)
    requires AvoidsNamed("", p)
    requires At(current, p) != At(after, p) && !IsTable(At(current, p))
    ensures At(Configured(agent, current, before, after), p) == At(current, p)
  {
    var b, group := Normalized(agent, before), Group(agent);
    if Matches(current, after, group) {
      UserEditsSurvive(current, b, after, "", p);
    } else {
      MaskAt(b, group, p);
      MaskAt(after, group, p);
      if exists m | m in group :: m <= p {
        UnmentionedUntouched(current, Mask(b, group), Mask(after, group), "", p);
      } else {
        UserEditsSurvive(current, Mask(b, group), Mask(after, group), "", p);
      }
    }
  }

  // ---------- Restoring the original ----------

  function KeysUnder(group: seq<Path>, table: string): set<string> {
    set m | m in group && |m| == 2 && m[0] == table :: m[1]
  }

  lemma {:induction false} MaskTable(doc: Doc, group: seq<Path>, key: string)
    requires forall m | m in group :: |m| == 1 || |m| == 2
    ensures [key] in group ==> Get(Mask(doc, group), key).None?
    ensures [key] !in group && IsTable(Get(doc, key)) ==>
            Get(Mask(doc, group), key) == Some(Table(Sub(Get(doc, key)) - KeysUnder(group, key)))
    ensures [key] !in group && !IsTable(Get(doc, key)) ==> Get(Mask(doc, group), key) == Get(doc, key)
  {
    if group == [] {
      assert KeysUnder(group, key) == {} && Sub(Get(doc, key)) - {} == Sub(Get(doc, key));
    } else {
      var rest, last := group[..|group|-1], group[|group|-1];
      assert group == rest + [last];
      MaskTable(doc, rest, key);
      if |last| == 2 && last[0] == key {
        assert KeysUnder(group, key) == KeysUnder(rest, key) + {last[1]};
        assert last[1..] == [last[1]];
        if [key] !in group && IsTable(Get(doc, key)) {
          assert IsTable(Get(Mask(doc, rest), key));
          assert DeleteAt(Sub(Get(Mask(doc, rest), key)), last[1..]) == Sub(Get(Mask(doc, rest), key)) - {last[1]};
          assert Sub(Get(doc, key)) - KeysUnder(group, key) == Sub(Get(doc, key)) - KeysUnder(rest, key) - {last[1]};
        }
      } else {
        assert KeysUnder(group, key) == KeysUnder(rest, key);
        assert |last| == 1 ==> last == [last[0]];
      }
    }
  }

  /** Restoring below a table that lost some keys in both snapshots: the original table stays. */
  lemma MaskedTableStays(original: Doc, after: Doc, keys: set<string>, path: string)
    requires AtomicPath(path)
    ensures Restore(original, original - keys, after - keys, path) == original
    ensures Restore(original, original - keys, map[], path) == original
  {
    forall k
      ensures RestoreKey(original, original - keys, after - keys, path, k) == Get(original, k)
      ensures RestoreKey(original, original - keys, map[], path, k) == Get(original, k)
    {
    }
    forall k
      ensures Get(Restore(original, original - keys, after - keys, path), k) == Get(original, k)
      ensures Get(Restore(original, original - keys, map[], path), k) == Get(original, k)
    {
      RestoreAt(original, original - keys, after - keys, path, k);
      RestoreAt(original, original - keys, map[], path, k);
    }
    DocsEqual(Restore(original, original - keys, after - keys, path), original);
    DocsEqual(Restore(original, original - keys, map[], path), original);
  }

  lemma MaskedGroupKey(agent: string, doc: Doc, key: string)
    ensures var masked := Get(Mask(doc, Group(agent)), key);
            && ([key] in Group(agent) ==> masked.None?)
            && ([key] !in Group(agent) && !IsTable(Get(doc, key)) ==> masked == Get(doc, key))
            && ([key] !in Group(agent) && IsTable(Get(doc, key)) ==>
                  masked == Some(Table(Sub(Get(doc, key)) - KeysUnder(Group(agent), key))))
    ensures [key] !in Group(agent) && !AtomicPath(key) ==> Get(Mask(doc, Group(agent)), key) == Get(doc, key)
  {
    hide Mask;
    hide Group;
    var group := Group(agent);
    forall m | m in group ensures |m| == 1 || |m| == 2 {
      GroupPaths(agent, m);
    }
    MaskTable(doc, group, key);
    if !AtomicPath(key) {
      forall m | m in group ensures !(|m| == 2 && m[0] == key) {
        GroupPaths(agent, m);
      }
      assert KeysUnder(group, key) == {} && Sub(Get(doc, key)) - {} == Sub(Get(doc, key));
    }
  }

  /** With the original as current document, masking makes no difference at any key. */
  lemma MaskedKeyStays(agent: string, before: Doc, after: Doc, key: string)
    requires !(TextModel(agent, before) && key == "model")
    ensures RestoreKey(before, Mask(before, Group(agent)), Mask(after, Group(agent)), "", key)
         == RestoreKey(before, before, after, "", key)
  {
    var group := Group(agent);
    var b, a := Mask(before, group), Mask(after, group);
    MaskedGroupKey(agent, before, key);
    MaskedGroupKey(agent, after, key);
    if [key] in group || AtomicPath(key) {
      assert key != "" && key != NAMED_PROVIDERS by {
        if [key] in group {
          GroupPathAvoidsNamed([key]);
        }
      }
      IdentityKey(before, after, "", key);
      if [key] !in group {
        MaskedTableStays(Sub(Get(before, key)), Sub(Get(after, key)), KeysUnder(group, key), key);
      }
    } else {
      RestoreKeyReads(before, b, a, before, before, after, "", key);
    }
  }

  lemma NormalizedKeys(agent: string, before: Doc, key: string)
    requires !(TextModel(agent, before) && key == "model")
    ensures Get(Mask(Normalized(agent, before), Group(agent)), key) == Get(Mask(before, Group(agent)), key)
  {
    MaskedGroupKey(agent, before, key);
    MaskedGroupKey(agent, Normalized(agent, before), key);
  }

  /** A bare Hermes model name stays, unless the install left the very same name in place. */
  lemma TextModelKey(agent: string, before: Doc, after: Doc)
    requires TextModel(agent, before)
    ensures var b, group := Normalized(agent, before), Group(agent);
            && (RestoreKey(before, b, after, "", "model") == Get(before, "model")
                <==> Get(after, "model") != Get(before, "model"))
            && (RestoreKey(before, Mask(b, group), Mask(after, group), "", "model") == Get(before, "model")
                <==> Get(after, "model") != Get(before, "model"))
  {
    var b := Normalized(agent, before);
    forall m | m in Group(agent) ensures m != ["model"] {
      GroupPaths(agent, m);
    }
    MaskedGroupKey(agent, b, "model");
    MaskedGroupKey(agent, after, "model");
  }

  /** Restoring a file the install never reached changes nothing: the recovery after an interrupted save. */
  lemma ConfiguredKeepsOriginal(agent: string, before: Doc, after: Doc)
    ensures Configured(agent, before, before, after) == before
            <==> && NamedInert(before, after, "")
                 && !(TextModel(agent, before) && Get(after, "model") == Get(before, "model"))
  {
    var b, group := Normalized(agent, before), Group(agent);
    var r, plain := Configured(agent, before, before, after), Restore(before, before, after, "");
    forall k | !(TextModel(agent, before) && k == "model") ensures Get(r, k) == Get(plain, k) {
      RestoreAt(before, before, after, "", k);
      if Matches(before, after, group) {
        RestoreAt(before, b, after, "", k);
        RestoreKeyReads(before, b, after, before, before, after, "", k);
      } else {
        RestoreAt(before, Mask(b, group), Mask(after, group), "", k);
        NormalizedKeys(agent, before, k);
        RestoreKeyReads(before, Mask(b, group), Mask(after, group), before, Mask(before, group), Mask(after, group),
            "", k);
        MaskedKeyStays(agent, before, after, k);
      }
    }
    RestoringOriginalIsIdentity(before, after, "");
    IdentityKey(before, after, "", "model");
    RestoreAt(before, before, after, "", "model");
    if TextModel(agent, before) {
      TextModelKey(agent, before, after);
      RestoreAt(before, b, after, "", "model");
      RestoreAt(before, Mask(b, group), Mask(after, group), "", "model");
    }
    if r == before {
      DocsEqual(plain, before);
    } else if plain == before && !(TextModel(agent, before) && Get(after, "model") == Get(before, "model")) {
      DocsEqual(r, before);
    }
  }

  // ---------- Restoring twice ----------

  lemma MaskKeepsOthers(agent: string, doc: Doc)
    ensures Get(Mask(doc, Group(agent)), "") == Get(doc, "")
    ensures Get(Mask(doc, Group(agent)), NAMED_PROVIDERS) == Get(doc, NAMED_PROVIDERS)
  {
    MaskedGroupKey(agent, doc, "");
    MaskedGroupKey(agent, doc, NAMED_PROVIDERS);
    forall m | m in Group(agent) ensures m != [""] && m != [NAMED_PROVIDERS] {
      GroupPaths(agent, m);
      GroupPathAvoidsNamed(m);
    }
  }

  lemma NamedOnceReads(current: Doc, b1: Doc, a1: Doc, b2: Doc, a2: Doc)
    requires Get(b1, NAMED_PROVIDERS) == Get(b2, NAMED_PROVIDERS)
              && Get(a1, NAMED_PROVIDERS) == Get(a2, NAMED_PROVIDERS)
    requires Get(b1, "") == Get(b2, "") && Get(a1, "") == Get(a2, "")
    ensures NamedOnce(current, b1, a1, "") <==> NamedOnce(current, b2, a2, "")
  {
    if WalkedAtRoot(current, b1, a1) {
      NamedOnceAtRoot(current, b1, a1);
      NamedOnceAtRoot(current, b2, a2);
    }
  }

  /** A restored table stays as it is under snapshots that have lost some of their entries. */
  lemma SettledTable(current: Doc, once: Doc, before: Doc, after: Doc, keys: set<string>, path: string)
    requires AtomicPath(path) && once == Restore(current, before, after, path)
    ensures Restore(once, before - keys, after - keys, path) == once
  {
    var b, a := before - keys, after - keys;
    forall j ensures Get(Restore(once, b, a, path), j) == Get(once, j) {
      RestoreAt(once, b, a, path, j);
      RestoreAt(current, before, after, path, j);
      PlainKey(current, before, after, path, j);
      PlainKey(once, b, a, path, j);
      assert Get(b, j) == (if j in keys then None else Get(before, j))
          && Get(a, j) == (if j in keys then None else Get(after, j));
    }
    DocsEqual(Restore(once, b, a, path), once);
  }

  function MaskedEntry(n: Option<Node>, keys: set<string>): Option<Node> {
    if IsTable(n) then Some(Table(Sub(n) - keys)) else n
  }

  predicate WalkedTable(current: Option<Node>, before: Option<Node>, after: Option<Node>) {
    before != after && TableOrAbsent(before) && TableOrAbsent(after) && TableOrAbsent(current)
        && (current.None? ==> after.None?)
  }

  lemma SettledKey(current: Doc, once: Doc, b: Doc, a: Doc, mb: Doc, ma: Doc, keys: set<string>, key: string)
    requires AtomicPath(key) && Get(once, key) == RestoreKey(current, b, a, "", key)
    requires Get(mb, key) == MaskedEntry(Get(b, key), keys) && Get(ma, key) == MaskedEntry(Get(a, key), keys)
    requires forall j | j in keys :: Get(Sub(Get(current, key)), j) == Get(Sub(Get(a, key)), j)
    ensures RestoreKey(once, mb, ma, "", key) == Get(once, key)
  {
    hide Restore;
    hide RestoreKey;
    var at, ct, ot := Get(a, key), Get(current, key), Get(once, key);
    assert key != NAMED_PROVIDERS && !AtomicPath("");
    if WalkedTable(ct, Get(b, key), at) {
      SettledWalk(current, once, b, a, mb, ma, keys, key);
    } else {
      PlainKey(current, b, a, "", key);
      if ot == Get(ma, key) && IsTable(at) && ot == ct {
        UnmaskedTable(ct, at, keys);
      }
      PlainKey(once, mb, ma, "", key);
    }
  }

  lemma SettledWalk(current: Doc, once: Doc, b: Doc, a: Doc, mb: Doc, ma: Doc, keys: set<string>, key: string)
    requires AtomicPath(key) && key != NAMED_PROVIDERS && Get(once, key) == RestoreKey(current, b, a, "", key)
    requires Get(mb, key) == MaskedEntry(Get(b, key), keys) && Get(ma, key) == MaskedEntry(Get(a, key), keys)
    requires WalkedTable(Get(current, key), Get(b, key), Get(a, key))
    ensures RestoreKey(once, mb, ma, "", key) == Get(once, key)
  {
    hide Restore;
    hide RestoreKey;
    var bt, at, ot := Get(b, key), Get(a, key), Get(once, key);
    TableKey(current, b, a, "", key);
    assert Extend("", key) == key;
    if Get(mb, key) == Get(ma, key) || (ot.None? && at.Some?) {
      PlainKey(once, mb, ma, "", key);
    } else {
      TableKey(once, mb, ma, "", key);
      assert Sub(None) - keys == map[];
      SettledTable(Sub(Get(current, key)), Sub(ot), Sub(bt), Sub(at), keys, key);
    }
  }

  lemma UnmaskedTable(c: Option<Node>, a: Option<Node>, keys: set<string>)
    requires IsTable(a) && c == MaskedEntry(a, keys)
    requires forall j | j in keys :: Get(Sub(c), j) == Get(Sub(a), j)
    ensures c == a
  {
    DocsEqual(Sub(c), Sub(a));
  }

  /** Restoring twice is restoring once, exactly when no installed provider entry was there twice, although the second
      restore may find the group edited, since the first one put it back. */
  lemma ConfiguredIsIdempotent(agent: string, current: Doc, before: Doc, after: Doc)
    ensures var once := Configured(agent, current, before, after);
            Configured(agent, once, before, after) == once <==> NamedOnce(current, Normalized(agent, before), after, "")
  {
    var b, group := Normalized(agent, before), Group(agent);
    var mb, ma := Mask(b, group), Mask(after, group);
    var once := Configured(agent, current, before, after);
    MaskKeepsOthers(agent, b);
    MaskKeepsOthers(agent, after);
    hide Restore;
    hide Mask;
    hide Group;
    hide Normalized;
    hide At;
    hide NamedOnce;
    if !Matches(current, after, group) {
      var m :| m in group && At(current, m) != At(after, m);
      EditedGroupUntouched(agent, current, before, after, m);
      RestoreIsIdempotent(current, mb, ma, "");
      NamedOnceReads(current, b, after, mb, ma);
    } else {
      RestoreIsIdempotent(current, b, after, "");
      if !Matches(once, after, group) {
        forall k ensures Get(Restore(once, mb, ma, ""), k) == Get(Restore(once, b, after, ""), k) {
          RestoreAt(once, mb, ma, "", k);
          RestoreAt(once, b, after, "", k);
          SettledGroupKey(agent, current, before, after, k);
        }
        DocsEqual(Restore(once, mb, ma, ""), Restore(once, b, after, ""));
      }
    }
  }

  lemma SettledGroupKey(agent: string, current: Doc, before: Doc, after: Doc, key: string)
    requires Matches(current, after, Group(agent))
    ensures var b, group := Normalized(agent, before), Group(agent);
            var once := Restore(current, b, after, "");
            RestoreKey(once, Mask(b, group), Mask(after, group), "", key) == RestoreKey(once, b, after, "", key)
  {
    hide Restore;
    hide RestoreKey;
    hide Normalized;
    hide Mask;
    hide Group;
    var b, group := Normalized(agent, before), Group(agent);
    var once := Restore(current, b, after, "");
    var mb, ma := Mask(b, group), Mask(after, group);
    RestoreAt(current, b, after, "", key);
    MaskedGroupKey(agent, b, key);
    MaskedGroupKey(agent, after, key);
    if [key] in group {
      GroupPaths(agent, [key]);
      GroupPathAvoidsNamed([key]);
      TwiceKey(current, once, b, after, "", key);
      PlainKey(once, mb, ma, "", key);
    } else if AtomicPath(key) {
      TwiceKey(current, once, b, after, "", key);
      forall j | j in KeysUnder(group, key) ensures Get(Sub(Get(current, key)), j) == Get(Sub(Get(after, key)), j) {
        var m :| m in group && |m| == 2 && m[0] == key && m[1] == j;
        AtEntry(current, m);
        AtEntry(after, m);
      }
      SettledKey(current, once, b, after, mb, ma, KeysUnder(group, key), key);
    } else {
      RestoreKeyReads(once, mb, ma, once, b, after, "", key);
    }
  }

  // ---------- When a restore gives back the original ----------

  /** current agrees with one of the snapshots key by key, the credential group being one key; a bare Hermes model name
      is the current one, and not the installed one. */
  ghost predicate ConfiguredRecovers(agent: string, current: Doc, before: Doc, after: Doc) {
    var group := Group(agent);
    if TextModel(agent, before) then TextRecovers(current, before, after)
    else if Matches(current, after, group) then Recovers(current, before, after, "")
    else Matches(current, before, group) && Recovers(Mask(current, group), Mask(before, group), Mask(after, group), "")
  }

  ghost predicate TextRecovers(current: Doc, before: Doc, after: Doc) {
    && Get(current, "model") == Get(before, "model") && Get(after, "model") != Get(before, "model")
    && forall k :: k != "model" ==> KeyRecovers(current, before, after, "", k)
  }

  /** The restore gives exactly the original, if and only if it is recoverable in this sense. */
  lemma ConfiguredRecoversExactly(agent: string, current: Doc, before: Doc, after: Doc)
    ensures Configured(agent, current, before, after) == before <==> ConfiguredRecovers(agent, current, before, after)
  {
    var group := Group(agent);
    hide Restore;
    hide Recovers;
    hide TextRecovers;
    if TextModel(agent, before) {
      TextRecoversExactly(current, before, after);
    } else if Matches(current, after, group) {
      RestoreRecoversExactly(current, before, after, "");
    } else {
      MaskedRestore(agent, current, before, after);
      RestoreRecoversExactly(Mask(current, group), Mask(before, group), Mask(after, group), "");
    }
  }

  lemma HermesMaskKey(doc: Doc, key: string)
    requires key != "model"
    ensures Get(Mask(doc, Group("hermes")), key) == Get(doc, key)
  {
    hide Mask;
    var group := Group("hermes");
    forall m | m in group ensures |m| == 2 && m[0] == "model" {
      var i :| 0 <= i < |HERMES_GROUP| && HERMES_GROUP[i] == m;
    }
    MaskTable(doc, group, key);
    assert KeysUnder(group, key) == {} && Sub(Get(doc, key)) - {} == Sub(Get(doc, key));
  }

  /** Against a table in the original, a bare value comes back exactly if it is current and was not installed. */
  lemma BareValueStays(current: Doc, before: Doc, after: Doc, key: string, scalar: Scalar)
    requires key != NAMED_PROVIDERS && IsTable(Get(before, key))
    ensures var bare := Some(Leaf(scalar));
            RestoreKey(current, before, after, "", key) == bare
            <==> Get(current, key) == bare && Get(after, key) != bare
  {
    hide Restore;
  }

  lemma TextRecoversExactly(current: Doc, before: Doc, after: Doc)
    requires TextModel("hermes", before)
    ensures Configured("hermes", current, before, after) == before <==> TextRecovers(current, before, after)
  {
    var r := Configured("hermes", current, before, after);
    hide Configured;
    hide KeyRecovers;
    forall k | k != "model" ensures Get(r, k) == Get(before, k) <==> KeyRecovers(current, before, after, "", k) {
      BesidesTextModel(current, before, after, k);
    }
    TextModelComesBack(current, before, after);
    if TextRecovers(current, before, after) {
      DocsEqual(r, before);
    }
  }

  lemma BesidesTextModel(current: Doc, before: Doc, after: Doc, key: string)
    requires TextModel("hermes", before) && key != "model"
    ensures Get(Configured("hermes", current, before, after), key) == Get(before, key)
            <==> KeyRecovers(current, before, after, "", key)
  {
    hide Restore;
    hide RestoreKey;
    hide KeyRecovers;
    hide Mask;
    hide Group;
    var b, group := Normalized("hermes", before), Group("hermes");
    RestoreAt(current, b, after, "", key);
    RestoreAt(current, Mask(b, group), Mask(after, group), "", key);
    HermesMaskKey(b, key);
    HermesMaskKey(after, key);
    RestoreKeyReads(current, b, after, current, before, after, "", key);
    RestoreKeyReads(current, Mask(b, group), Mask(after, group), current, before, after, "", key);
    KeyRecoversExactly(current, before, after, "", key);
  }

  lemma TextModelComesBack(current: Doc, before: Doc, after: Doc)
    requires TextModel("hermes", before)
    ensures Get(Configured("hermes", current, before, after), "model") == Get(before, "model")
            <==> Get(current, "model") == Get(before, "model") && Get(after, "model") != Get(before, "model")
  {
    hide Restore;
    hide RestoreKey;
    hide Mask;
    hide Group;
    var b, group := Normalized("hermes", before), Group("hermes");
    var scalar := before["model"].scalar;
    forall m | m in group ensures m != ["model"] {
      GroupPaths("hermes", m);
    }
    MaskedGroupKey("hermes", b, "model");
    MaskedGroupKey("hermes", after, "model");
    assert NAMED_PROVIDERS[0] == 'c' && "model"[0] == 'm';
    RestoreAt(current, b, after, "", "model");
    RestoreAt(current, Mask(b, group), Mask(after, group), "", "model");
    BareValueStays(current, b, after, "model", scalar);
    BareValueStays(current, Mask(b, group), Mask(after, group), "model", scalar);
  }

  /** A document is its group and the rest. */
  lemma GroupAndRest(agent: string, x: Doc, y: Doc)
    ensures x == y <==> Matches(x, y, Group(agent)) && Mask(x, Group(agent)) == Mask(y, Group(agent))
  {
    var group := Group(agent);
    hide Mask;
    hide Group;
    hide At;
    if Matches(x, y, group) && Mask(x, group) == Mask(y, group) {
      forall k ensures Get(x, k) == Get(y, k) {
        MaskedGroupKey(agent, x, k);
        MaskedGroupKey(agent, y, k);
        if [k] in group {
          AtKey(x, k);
          AtKey(y, k);
        } else if IsTable(Get(x, k)) {
          GroupEntriesAgree(x, y, group, k);
          SameBesides(Sub(Get(x, k)), Sub(Get(y, k)), KeysUnder(group, k));
        }
      }
      DocsEqual(x, y);
    }
  }

  lemma AtKey(doc: Doc, key: string)
    ensures At(doc, [key]) == Get(doc, key)
  {
  }

  lemma GroupEntriesAgree(x: Doc, y: Doc, group: seq<Path>, key: string)
    requires Matches(x, y, group)
    ensures forall j | j in KeysUnder(group, key) :: Get(Sub(Get(x, key)), j) == Get(Sub(Get(y, key)), j)
  {
    forall j | j in KeysUnder(group, key) ensures Get(Sub(Get(x, key)), j) == Get(Sub(Get(y, key)), j) {
      var m :| m in group && |m| == 2 && m[0] == key && m[1] == j;
      AtEntry(x, m);
      AtEntry(y, m);
    }
  }

  lemma SameBesides(x: Doc, y: Doc, keys: set<string>)
    requires x - keys == y - keys && forall j | j in keys :: Get(x, j) == Get(y, j)
    ensures x == y
  {
    forall j ensures Get(x, j) == Get(y, j) {
      if j !in keys {
        assert Get(x - keys, j) == Get(y - keys, j);
      }
    }
    DocsEqual(x, y);
  }

  /** With the group edited: it must be the original one, and the rest must recover without it. */
  lemma MaskedRestore(agent: string, current: Doc, before: Doc, after: Doc)
    requires !TextModel(agent, before) && !Matches(current, after, Group(agent))
    ensures var group := Group(agent);
            var b, a := Mask(before, group), Mask(after, group);
            Configured(agent, current, before, after) == before
            <==> Matches(current, before, group) && Restore(Mask(current, group), b, a, "") == b
  {
    var group := Group(agent);
    var b, a, c := Mask(before, group), Mask(after, group), Mask(current, group);
    var r := Configured(agent, current, before, after);
    assert r == Restore(current, b, a, "");
    forall m | m in group ensures At(r, m) == At(current, m) {
      EditedGroupUntouched(agent, current, before, after, m);
    }
    GroupAndRest(agent, r, before);
    hide Restore;
    hide Configured;
    hide Mask;
    hide Group;
    hide At;
    if Matches(current, before, group) {
      forall k ensures Get(Mask(r, group), k) == Get(Restore(c, b, a, ""), k) {
        RestoreAt(current, b, a, "", k);
        RestoreAt(c, b, a, "", k);
        MaskedKey(agent, current, before, after, r, k);
      }
      DocsEqual(Mask(r, group), Restore(c, b, a, ""));
    }
  }

  /** With the group as in the original, masking before or after the restore makes no difference. */
  lemma MaskedKey(agent: string, current: Doc, before: Doc, after: Doc, r: Doc, key: string)
    requires Matches(current, before, Group(agent))
    requires Get(r, key) == RestoreKey(current, Mask(before, Group(agent)), Mask(after, Group(agent)), "", key)
    ensures var group := Group(agent);
            Get(Mask(r, group), key)
            == RestoreKey(Mask(current, group), Mask(before, group), Mask(after, group), "", key)
  {
    hide Restore;
    hide RestoreKey;
    hide Mask;
    hide Group;
    hide At;
    var group := Group(agent);
    var b, a, c := Mask(before, group), Mask(after, group), Mask(current, group);
    MaskedGroupKey(agent, r, key);
    MaskedGroupKey(agent, current, key);
    if [key] in group {
      GroupPaths(agent, [key]);
      GroupPathAvoidsNamed([key]);
      MaskedGroupKey(agent, before, key);
      MaskedGroupKey(agent, after, key);
      PlainKey(c, b, a, "", key);
    } else if !AtomicPath(key) {
      RestoreKeyReads(current, b, a, c, b, a, "", key);
    } else {
      MaskedGroupKey(agent, before, key);
      MaskedGroupKey(agent, after, key);
      GroupEntriesAgree(current, before, group, key);
      MaskedAtomicKey(current, before, b, a, c, Get(after, key), KeysUnder(group, key), key);
    }
  }

  lemma MaskedAtomicKey(current: Doc, before: Doc, b: Doc, a: Doc, c: Doc, after: Option<Node>, keys: set<string>,
        key: string)
    requires AtomicPath(key)
    requires Get(b, key) == MaskedEntry(Get(before, key), keys) && Get(a, key) == MaskedEntry(after, keys)
    requires Get(c, key) == MaskedEntry(Get(current, key), keys)
    requires forall j | j in keys :: Get(Sub(Get(current, key)), j) == Get(Sub(Get(before, key)), j)
    ensures MaskedEntry(RestoreKey(current, b, a, "", key), keys) == RestoreKey(c, b, a, "", key)
  {
    hide Restore;
    hide RestoreKey;
    var bt, at, ct := Get(b, key), Get(a, key), Get(current, key);
    assert key != NAMED_PROVIDERS && !AtomicPath("");
    if !IsTable(Get(before, key)) {
      NothingMasked(ct, keys);
    }
    if WalkedTable(ct, bt, at) {
      MaskedWalk(current, b, a, c, keys, key);
    } else {
      PlainKey(current, b, a, "", key);
      PlainKey(c, b, a, "", key);
      MaskedTwice(Get(before, key), keys);
      MaskedTwice(after, keys);
    }
  }

  lemma NothingMasked(n: Option<Node>, keys: set<string>)
    requires forall j | j in keys :: Get(Sub(n), j).None?
    ensures MaskedEntry(n, keys) == n
  {
    assert Sub(n) - keys == Sub(n);
  }

  lemma MaskedTwice(n: Option<Node>, keys: set<string>)
    ensures MaskedEntry(MaskedEntry(n, keys), keys) == MaskedEntry(n, keys)
  {
    assert Sub(n) - keys - keys == Sub(n) - keys;
  }

  lemma MaskedWalk(current: Doc, b: Doc, a: Doc, c: Doc, keys: set<string>, key: string)
    requires AtomicPath(key) && key != NAMED_PROVIDERS && WalkedTable(Get(current, key), Get(b, key), Get(a, key))
    requires Get(c, key) == MaskedEntry(Get(current, key), keys)
    requires keys !! Sub(Get(b, key)).Keys && keys !! Sub(Get(a, key)).Keys
    requires Get(b, key).None? ==> Get(c, key) == Get(current, key)
    ensures MaskedEntry(RestoreKey(current, b, a, "", key), keys) == RestoreKey(c, b, a, "", key)
  {
    hide Restore;
    hide RestoreKey;
    var ct, bt, at := Sub(Get(current, key)), Sub(Get(b, key)), Sub(Get(a, key));
    var inner, masked := Restore(ct, bt, at, key), Restore(ct - keys, bt, at, key);
    assert Extend("", key) == key;
    assert Sub(Get(c, key)) == ct - keys;
    TableKey(current, b, a, "", key);
    TableKey(c, b, a, "", key);
    forall j ensures Get(inner - keys, j) == Get(masked, j) {
      RestoreAt(ct, bt, at, key, j);
      RestoreAt(ct - keys, bt, at, key, j);
      if j in keys {
        PlainKey(ct - keys, bt, at, key, j);
      } else {
        RestoreKeyReads(ct, bt, at, ct - keys, bt, at, key, j);
      }
    }
    DocsEqual(inner - keys, masked);
  }

  // ---------- Agent by agent ----------

  /** Claude: once one of these is edited, every one of them stays as it is; an old token never meets an edited
      address, nor an old helper. */
  lemma ClaudeCredentialsStay(current: Doc, before: Doc, after: Doc, edited: Path, m: Path)
    requires
      var members: set<Path> := {
        ["apiKeyHelper"], ["env", "ANTHROPIC_BASE_URL"], ["env", "ANTHROPIC_AUTH_TOKEN"], ["env", "ANTHROPIC_API_KEY"],
        ["env", "CLAUDE_CODE_USE_BEDROCK"], ["env", "CLAUDE_CODE_USE_VERTEX"], ["env", "CLAUDE_CODE_USE_FOUNDRY"]};
      edited in members && m in members
    requires At(current, edited) != At(after, edited)
    ensures At(Configured("claude", current, before, after), m) == At(current, m)
  {
    var g := CLAUDE_GROUP;
    assert g[0] in g && g[1] in g && g[2] in g && g[3] in g && g[4] in g && g[5] in g && g[6] in g;
    EditedGroupUntouched("claude", current, before, after, m);
  }

  /** Hermes: the provider, its address, its key and its protocol. */
  lemma HermesCredentialsStay(current: Doc, before: Doc, after: Doc, edited: Path, m: Path)
    requires
      var members: set<Path> := {
        ["model", "provider"], ["model", "base_url"], ["model", "api_key"], ["model", "api_mode"]};
      edited in members && m in members
    requires At(current, edited) != At(after, edited)
    ensures At(Configured("hermes", current, before, after), m) == At(current, m)
  {
    var g := HERMES_GROUP;
    assert g[0] in g && g[1] in g && g[2] in g && g[3] in g;
    EditedGroupUntouched("hermes", current, before, after, m);
  }

  /** Nothing else is tied to them: any other entry of their tables is restored by itself, whatever was edited. */
  lemma OtherEntriesMerge(agent: string, current: Doc, before: Doc, after: Doc, table: string, key: string)
    requires agent == "claude" ==> !(table == "env" && key in {
      "ANTHROPIC_BASE_URL", "ANTHROPIC_AUTH_TOKEN", "ANTHROPIC_API_KEY",
      "CLAUDE_CODE_USE_BEDROCK", "CLAUDE_CODE_USE_VERTEX", "CLAUDE_CODE_USE_FOUNDRY"})
    requires agent == "hermes" ==> !(table == "model" && key in {"provider", "base_url", "api_key", "api_mode"})
    requires table in {"providers", "provider", "model", "env"}
    requires IsTable(Get(current, table)) && IsTable(Get(before, table)) && IsTable(Get(after, table))
    ensures var r := Get(Sub(Get(Configured(agent, current, before, after), table)), key);
            var c, b, a :=
                Get(Sub(Get(current, table)), key), Get(Sub(Get(before, table)), key), Get(Sub(Get(after, table)), key);
            r == if c == a then b else c
  {
    hide Restore;
    hide RestoreKey;
    hide Mask;
    var b, group := Normalized(agent, before), Group(agent);
    assert Get(b, table) == Get(before, table);
    NotAMember(agent, table, key);
    hide Group;
    hide Normalized;
    EntryMerges(current, b, after, table, key);
    MaskedGroupKey(agent, b, table);
    MaskedGroupKey(agent, after, table);
    forall m | m in group ensures m != [table] {
      GroupPaths(agent, m);
    }
    EntryMerges(current, Mask(b, group), Mask(after, group), table, key);
  }

  lemma NotAMember(agent: string, table: string, key: string)
    requires agent == "claude" ==> !(table == "env" && key in {
      "ANTHROPIC_BASE_URL", "ANTHROPIC_AUTH_TOKEN", "ANTHROPIC_API_KEY",
      "CLAUDE_CODE_USE_BEDROCK", "CLAUDE_CODE_USE_VERTEX", "CLAUDE_CODE_USE_FOUNDRY"})
    requires agent == "hermes" ==> !(table == "model" && key in {"provider", "base_url", "api_key", "api_mode"})
    ensures key !in KeysUnder(Group(agent), table)
  {
    hide Group;
    forall m | m in Group(agent) && |m| == 2 ensures !(m[0] == table && m[1] == key) {
      GroupEntry(agent, m);
    }
  }

  lemma GroupEntry(agent: string, m: Path)
    requires m in Group(agent) && |m| == 2
    ensures agent == "claude" ==> m[0] == "env" && m[1] in {
      "ANTHROPIC_BASE_URL", "ANTHROPIC_AUTH_TOKEN", "ANTHROPIC_API_KEY",
      "CLAUDE_CODE_USE_BEDROCK", "CLAUDE_CODE_USE_VERTEX", "CLAUDE_CODE_USE_FOUNDRY"}
    ensures agent == "hermes" ==> m[0] == "model" && m[1] in {"provider", "base_url", "api_key", "api_mode"}
    ensures agent in {"claude", "hermes"}
  {
    var i :| 0 <= i < |Group(agent)| && Group(agent)[i] == m;
  }

  lemma EntryMerges(current: Doc, before: Doc, after: Doc, table: string, key: string)
    requires table in {"providers", "provider", "model", "env"}
    requires IsTable(Get(current, table)) && IsTable(Get(before, table)) && IsTable(Get(after, table))
    ensures var r := Get(Sub(Get(Restore(current, before, after, ""), table)), key);
            var c, b, a :=
                Get(Sub(Get(current, table)), key), Get(Sub(Get(before, table)), key), Get(Sub(Get(after, table)), key);
            r == if c == a then b else c
  {
    hide Restore;
    hide RestoreKey;
    var c, b, a := Get(current, table), Get(before, table), Get(after, table);
    assert table[0] != NAMED_PROVIDERS[0] && Extend("", table) == table;
    RestoreAt(current, before, after, "", table);
    if b != a {
      TableKey(current, before, after, "", table);
      RestoreAt(Sub(c), Sub(b), Sub(a), table, key);
      PlainKey(Sub(c), Sub(b), Sub(a), table, key);
    } else {
      PlainKey(current, before, after, "", table);
    }
  }

  /** No other agent has such a group. */
  lemma OtherAgentsHaveNone(agent: string, current: Doc, before: Doc, after: Doc)
    requires agent !in {"claude", "hermes"}
    ensures Configured(agent, current, before, after) == Restore(current, before, after, "")
  {
  }

  /** Undo is exact for every agent, in documents without a list of named providers and without a bare Hermes model. */
  lemma UndoIsExactWithGroups(agent: string, before: Doc, after: Doc)
    requires "custom_providers" !in before && "custom_providers" !in after && "" !in before && "" !in after
    requires agent == "hermes" && "model" in before ==> !(before["model"].Leaf? && before["model"].scalar.Text?)
    ensures Configured(agent, after, before, after) == before
  {
    UndoIsExact(before, after);
    ConfiguredUndoesInstall(agent, before, after);
    RestoreUndoesInstall(before, after, "");
  }

  /** A bare Hermes model name comes back as the default of a model table. */
  lemma BareModelBecomesDefault(before: Doc, after: Doc, name: string)
    requires Get(before, "model") == Some(Leaf(Text(name)))
    ensures Get(Configured("hermes", after, before, after), "model") == Some(Table(map["default" := Leaf(Text(name))]))
  {
    var b := Normalized("hermes", before);
    UndoKey(b, after, "", "model");
    RestoreAt(after, b, after, "", "model");
    assert NAMED_PROVIDERS[0] == 'c' && "model"[0] == 'm';
  }
}
