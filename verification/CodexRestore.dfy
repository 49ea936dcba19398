/** The Codex three-way restore of internal/rai/codex_restore.go: like the client restore, with the
    authentication of each model provider kept as one unit. */
module CodexRestore {
  import opened Wrappers
  import opened ConfigTree

  const PROVIDERS := "model_providers."

  /** The path of one provider table: the prefix, and no second dot. */
  predicate ProviderPath(path: string) {
    PROVIDERS <= path && '.' !in path[|PROVIDERS|..]
  }

  // ---------- The authentication group ----------

  const AUTH_FIELDS :=
      {"base_url", "auth", "experimental_bearer_token", "env_key", "env_key_instructions", "requires_openai_auth"}

  const HEADER_TABLES := {"http_headers", "env_http_headers"}

  function Lower(c: char): char {
    if 'A' <= c <= 'Z' then (c as int + 32) as char else c
  }

  /** Header names compare without regard to case. */
  predicate IsAuthorization(name: string) {
    |name| == 13 && forall i | 0 <= i < 13 :: Lower(name[i]) == "authorization"[i]
  }

  function AuthHeaders(headers: Doc): Doc {
    map n | n in headers && IsAuthorization(n) :: headers[n]
  }

  function OtherHeaders(headers: Doc): Doc {
    map n | n in headers && !IsAuthorization(n) :: headers[n]
  }

  datatype AuthGroup = AuthGroup(fields: Doc, headers: Doc, envHeaders: Doc)

  function CodexAuthGroup(provider: Doc): AuthGroup {
    AuthGroup(map k | k in provider && k in AUTH_FIELDS :: provider[k],
              AuthHeaders(Sub(Get(provider, "http_headers"))), AuthHeaders(Sub(Get(provider, "env_http_headers"))))
  }

  /** The provider without its own group; header tables keep their other headers. */
  function MaskAuth(provider: Doc): (masked: Doc)
    ensures forall k :: Get(masked, k) ==
              if k in AUTH_FIELDS then None
              else if k in HEADER_TABLES
                  && IsTable(Get(provider, k)) then Some(Table(OtherHeaders(Sub(Get(provider, k)))))
              else Get(provider, k)
  {
    map k | k in provider && k !in AUTH_FIELDS ::
      if k in HEADER_TABLES && provider[k].Table? then Table(OtherHeaders(provider[k].entries)) else provider[k]
  }

  lemma MaskDepth(provider: Doc)
    ensures DocDepth(MaskAuth(provider)) <= DocDepth(provider)
  {
    var masked := MaskAuth(provider);
    forall k | k in masked ensures k in provider && Depth(masked[k]) <= Depth(provider[k]) {
      assert Get(masked, k).Some?;
      if masked[k] != provider[k] {
        assert Get(provider, k) == Some(provider[k]);
        DepthBound(masked[k].entries, provider[k].entries);
      }
    }
    DepthBound(masked, provider);
  }

  // ---------- The restore ----------

  ghost function CodexKey(current: Doc, before: Doc, after: Doc, path: string, key: string): Option<Node>
    decreases DocDepth(before) + DocDepth(after), 0
  {
    var b, a, c := Get(before, key), Get(after, key), Get(current, key);
    if (ProviderPath(path) && key == "auth") || (c.None? && a.Some?) || b == a then c
    else if TableOrAbsent(b) && TableOrAbsent(a) && TableOrAbsent(c) then
      SubDepth(before, key); SubDepth(after, key);
      var inner := Codex(Sub(c), Sub(b), Sub(a), Extend(path, key));
      if inner != map[] || b.Some? then Some(Table(inner)) else None
    else if c == a then b
    else c
  }

  ghost function CodexKeys(current: Doc, before: Doc, after: Doc, path: string): Doc
    decreases DocDepth(before) + DocDepth(after), 1
  {
    map k | k in current.Keys + before.Keys + after.Keys && CodexKey(current, before, after, path, k).Some?
      :: CodexKey(current, before, after, path, k).value
  }

  /** An edited group is masked out of both snapshots; an unedited one gives its auth back whole. */
  ghost function Codex(current: Doc, before: Doc, after: Doc, path: string): Doc
    decreases DocDepth(before) + DocDepth(after), 2
  {
    if !ProviderPath(path) then CodexKeys(current, before, after, path)
    else if CodexAuthGroup(current) != CodexAuthGroup(after) then
      MaskDepth(before); MaskDepth(after);
      CodexKeys(current, MaskAuth(before), MaskAuth(after), path)
    else CodexKeys(Put(current, "auth", Get(before, "auth")), before, after, path)
  }

  lemma KeysAt(current: Doc, before: Doc, after: Doc, path: string, key: string)
    ensures Get(CodexKeys(current, before, after, path), key) == CodexKey(current, before, after, path, key)
  {
  }

  /** CodexKey looks at one key of each document only. */
  lemma CodexKeyReads(c1: Doc, b1: Doc, a1: Doc, c2: Doc, b2: Doc, a2: Doc, path: string, key: string)
    requires Get(c1, key) == Get(c2, key) && Get(b1, key) == Get(b2, key) && Get(a1, key) == Get(a2, key)
    ensures CodexKey(c1, b1, a1, path, key) == CodexKey(c2, b2, a2, path, key)
  {
  }

  method RestoreCodexFieldsAt(current: Doc, before: Doc, after: Doc, path: string) returns (restored: Doc)
    ensures restored == Codex(current, before, after, path)
    decreases DocDepth(before) + DocDepth(after), 2
  {
    var b, a := before, after;
    restored := current;
    if ProviderPath(path) {
      if CodexAuthGroup(current) != CodexAuthGroup(after) {
        MaskDepth(before);
        MaskDepth(after);
        b, a := MaskAuth(before), MaskAuth(after);
      } else {
        restored := Put(current, "auth", Get(before, "auth"));
      }
    }
    restored := RestoreCodexKeys(restored, b, a, path);
  }

  /** The key loop, in whatever order the keys come. */
  method RestoreCodexKeys(current: Doc, before: Doc, after: Doc, path: string) returns (restored: Doc)
    ensures restored == CodexKeys(current, before, after, path)
    decreases DocDepth(before) + DocDepth(after), 1
  {
    hide Codex;
    hide CodexKeys;
    hide CodexKey;
    hide DocDepth;
    restored := current;
    var keys := before.Keys + after.Keys;
    ghost var want := CodexKeys(current, before, after, path);
    forall k | k !in keys ensures Get(current, k) == Get(want, k) {
      KeysAt(current, before, after, path, k);
      UnlistedKey(current, before, after, path, k);
    }
    while keys != {}
      invariant keys <= before.Keys + after.Keys
      invariant forall k | k in keys :: Get(restored, k) == Get(current, k)
      invariant forall k | k !in keys :: Get(restored, k) == Get(want, k)
    {
      var key :| key in keys;
      var n := RestoreCodexKey(restored, before, after, path, key);
      KeysAt(current, before, after, path, key);
      CodexKeyReads(restored, before, after, current, before, after, path, key);
      restored := Put(restored, key, n);
      keys := keys - {key};
    }
    DocsEqual(restored, want);
  }

  lemma UnlistedKey(current: Doc, before: Doc, after: Doc, path: string, key: string)
    requires key !in before && key !in after
    ensures CodexKey(current, before, after, path, key) == Get(current, key)
  {
  }

  lemma DeletedKeyStays(current: Doc, before: Doc, after: Doc, path: string, key: string)
    ensures key !in current && key in after ==> CodexKey(current, before, after, path, key).None?
  {
  }

  method RestoreCodexKey(current: Doc, before: Doc, after: Doc, path: string, key: string) returns (n: Option<Node>)
    ensures n == CodexKey(current, before, after, path, key)
    decreases DocDepth(before) + DocDepth(after), 0
  {
    hide Codex;
    hide CodexKeys;
    hide DocDepth;
    var b, a, c := Get(before, key), Get(after, key), Get(current, key);
    if ProviderPath(path) && key == "auth" {
      return c;
    }
    if c.None? && a.Some? {
      return c;
    }
    if b == a {
      return c;
    }
    if TableOrAbsent(b) && TableOrAbsent(a) && TableOrAbsent(c) {
      SubDepth(before, key);
      SubDepth(after, key);
      var inner := RestoreCodexFieldsAt(Sub(c), Sub(b), Sub(a), Extend(path, key));
      return if inner != map[] || b.Some? then Some(Table(inner)) else None;
    }
    return if c != a then c else b;
  }

  // ---------- Undo ----------

  /** Restoring the installed configuration yields exactly the original one, for every pair of trees. */
  lemma {:induction false} CodexUndoesInstall(before: Doc, after: Doc, path: string)
    ensures Codex(after, before, after, path) == before
    decreases DocDepth(before) + DocDepth(after), 1
  {
    var current := if ProviderPath(path) then Put(after, "auth", Get(before, "auth")) else after;
    var restored := CodexKeys(current, before, after, path);
    forall k ensures Get(restored, k) == Get(before, k) {
      KeysAt(current, before, after, path, k);
      UneditedKeyGoesBack(current, before, after, path, k);
    }
    DocsEqual(restored, before);
  }

  lemma {:induction false} UneditedKeyGoesBack(current: Doc, before: Doc, after: Doc, path: string, key: string)
    requires Get(current, key) == if ProviderPath(path) && key == "auth" then Get(before, key) else Get(after, key)
    ensures CodexKey(current, before, after, path, key) == Get(before, key)
    decreases DocDepth(before) + DocDepth(after), 0
  {
    hide Codex;
    hide CodexKeys;
    hide DocDepth;
    var b, a := Get(before, key), Get(after, key);
    if b != a && TableOrAbsent(b) && TableOrAbsent(a) {
      SubDepth(before, key);
      SubDepth(after, key);
      CodexUndoesInstall(Sub(b), Sub(a), Extend(path, key));
    }
  }

  // ---------- Restoring the original ----------

  /** Below a provider table nothing is a provider table any more. */
  lemma BelowProvider(path: string, key: string)
    requires ProviderPath(path)
    ensures !ProviderPath(Extend(path, key))
  {
    assert Extend(path, key)[|PROVIDERS|..][|path| - |PROVIDERS|] == '.';
  }

  /** Restoring a configuration that already is the original changes nothing, for every pair of trees. */
  lemma {:induction false} CodexKeepsOriginal(before: Doc, after: Doc, path: string)
    ensures Codex(before, before, after, path) == before
    decreases DocDepth(before) + DocDepth(after), 2
  {
    if ProviderPath(path) && CodexAuthGroup(before) != CodexAuthGroup(after) {
      var b, a := MaskAuth(before), MaskAuth(after);
      forall k ensures Get(CodexKeys(before, b, a, path), k) == Get(before, k) {
        KeysAt(before, b, a, path, k);
        if k in HEADER_TABLES && IsTable(Get(before, k)) {
          HeaderTableStays(before, after, path, k);
        } else if k !in AUTH_FIELDS {
          MaskDepth(before);
          MaskDepth(after);
          OriginalKeyStays(before, b, a, path, k);
        }
      }
      DocsEqual(CodexKeys(before, b, a, path), before);
    } else {
      var current := if ProviderPath(path) then Put(before, "auth", Get(before, "auth")) else before;
      DocsEqual(current, before);
      forall k ensures Get(CodexKeys(before, before, after, path), k) == Get(before, k) {
        KeysAt(before, before, after, path, k);
        OriginalKeyStays(before, before, after, path, k);
      }
      DocsEqual(CodexKeys(before, before, after, path), before);
    }
  }

  lemma {:induction false} OriginalKeyStays(current: Doc, before: Doc, after: Doc, path: string, key: string)
    requires Get(current, key) == Get(before, key)
    ensures CodexKey(current, before, after, path, key) == Get(current, key)
    decreases DocDepth(before) + DocDepth(after), 0
  {
    hide Codex;
    hide CodexKeys;
    hide DocDepth;
    var b, a := Get(before, key), Get(after, key);
    if b != a && TableOrAbsent(b) && TableOrAbsent(a) {
      SubDepth(before, key);
      SubDepth(after, key);
      CodexKeepsOriginal(Sub(b), Sub(a), Extend(path, key));
    }
  }

  lemma {:induction false} HeaderTableStays(before: Doc, after: Doc, path: string, key: string)
    requires ProviderPath(path) && key in HEADER_TABLES && IsTable(Get(before, key))
    ensures CodexKey(before, MaskAuth(before), MaskAuth(after), path, key) == Get(before, key)
    decreases DocDepth(before) + DocDepth(after), 1
  {
    var headers := Sub(Get(before, key));
    var b, a := MaskAuth(before), MaskAuth(after);
    assert Get(b, key) == Some(Table(OtherHeaders(headers)));
    assert Get(a, key) == Get(after, key) || Get(a, key) == Some(Table(OtherHeaders(Sub(Get(after, key)))));
    if TableOrAbsent(Get(a, key)) {
      HeaderDepth(before, after, key);
      BelowProvider(path, key);
      AgreeingTableStays(headers, Sub(Get(b, key)), Sub(Get(a, key)), Extend(path, key));
      if Get(b, key) != Get(a, key) {
        TableKey(before, b, a, path, key);
      }
    }
  }

  lemma HeaderDepth(before: Doc, after: Doc, key: string)
    requires key in before
    ensures DocDepth(Sub(Get(MaskAuth(before), key))) + DocDepth(Sub(Get(MaskAuth(after), key))) < DocDepth(before)
              + DocDepth(after)
  {
    var b, a := MaskAuth(before), MaskAuth(after);
    MaskDepth(before);
    MaskDepth(after);
    SubDepth(b, key);
    SubDepth(a, key);
    if key !in b {
      SubDepth(before, key);
      assert DocDepth(Sub(Get(b, key))) == DocDepth(map[]) <= DocDepth(Sub(Get(before, key)));
    }
  }

  /** The table case of CodexKey. */
  lemma TableKey(current: Doc, before: Doc, after: Doc, path: string, key: string)
    requires !(ProviderPath(path) && key == "auth") && Get(before, key) != Get(after, key)
    requires TableOrAbsent(Get(current, key)) && TableOrAbsent(Get(before, key)) && TableOrAbsent(Get(after, key))
    requires Get(current, key).None? ==> Get(after, key).None?
    ensures var inner := Codex(Sub(Get(current, key)), Sub(Get(before, key)), Sub(Get(after, key)), Extend(path, key));
            CodexKey(current, before, after, path, key) ==
            (if inner != map[] || Get(before, key).Some? then Some(Table(inner)) else None)
  {
  }

  /** A current table that agrees with the original wherever the snapshots say anything stays as it is. */
  lemma {:induction false} AgreeingTableStays(current: Doc, before: Doc, after: Doc, path: string)
    requires !ProviderPath(path)
    requires forall k | k in before || k in after :: Get(current, k) == Get(before, k)
    ensures Codex(current, before, after, path) == current
    decreases DocDepth(before) + DocDepth(after), 1
  {
    var restored := CodexKeys(current, before, after, path);
    forall k ensures Get(restored, k) == Get(current, k) {
      KeysAt(current, before, after, path, k);
      if k in before || k in after {
        OriginalKeyStays(current, before, after, path, k);
      }
    }
    DocsEqual(restored, current);
  }

  // ---------- User edits ----------

  /** The member of the authentication group that a path leads to or into. */
  predicate InAuthGroup(p: Path) {
    p[0] in AUTH_FIELDS || (p[0] in HEADER_TABLES && |p| > 1 && IsAuthorization(p[1]))
  }

  lemma MaskAuthAt(provider: Doc, p: Path)
    ensures InAuthGroup(p) ==> At(MaskAuth(provider), p).None?
    ensures !InAuthGroup(p) ==>
      At(MaskAuth(provider), p) == At(provider, p) || (IsTable(At(provider, p)) && IsTable(At(MaskAuth(provider), p)))
    ensures At(provider, p).None? ==> At(MaskAuth(provider), p).None?
  {
    assert Get(MaskAuth(provider), p[0]) == Get(MaskAuth(provider), p[0]);
    if p[0] in HEADER_TABLES && |p| > 1 && IsTable(Get(provider, p[0])) {
      var headers := Sub(Get(provider, p[0]));
      assert Get(OtherHeaders(headers), p[1]) == if IsAuthorization(p[1]) then None else Get(headers, p[1]);
      assert p[1..][0] == p[1];
    }
  }

  lemma SameGroup(c: Doc, a: Doc, p: Path)
    requires CodexAuthGroup(c) == CodexAuthGroup(a) && InAuthGroup(p)
    ensures At(c, p) == At(a, p)
    ensures p[0] in AUTH_FIELDS ==> Get(c, p[0]) == Get(a, p[0])
    ensures p[0] in HEADER_TABLES ==> Get(Sub(Get(c, p[0])), p[1]) == Get(Sub(Get(a, p[0])), p[1])
  {
    var g, h := CodexAuthGroup(c), CodexAuthGroup(a);
    assert Get(g.fields, p[0]) == Get(h.fields, p[0]);
    if p[0] in HEADER_TABLES {
      assert p[1..][0] == p[1];
      assert Get(AuthHeaders(Sub(Get(c, p[0]))), p[1]) == Get(AuthHeaders(Sub(Get(a, p[0]))), p[1]);
      assert Get(Sub(Get(c, p[0])), p[1]) == Get(Sub(Get(a, p[0])), p[1]);
    }
  }

  /** A path that neither snapshot mentions is never touched. */
  lemma {:induction false} CodexUnmentionedUntouched(current: Doc, before: Doc, after: Doc, path: string, p: Path)
    requires At(before, p).None? && At(after, p).None?
    ensures At(Codex(current, before, after, path), p) == At(current, p)
    decreases |p|, 1
  {
    if !ProviderPath(path) {
      UnmentionedKeys(current, before, after, path, p);
    } else if CodexAuthGroup(current) != CodexAuthGroup(after) {
      MaskAuthAt(before, p);
      MaskAuthAt(after, p);
      UnmentionedKeys(current, MaskAuth(before), MaskAuth(after), path, p);
    } else {
      UnmentionedKeys(Put(current, "auth", Get(before, "auth")), before, after, path, p);
      if p[0] == "auth" {
        SameGroup(current, after, p);
      }
    }
  }

  lemma {:induction false} UnmentionedKeys(current: Doc, before: Doc, after: Doc, path: string, p: Path)
    requires At(before, p).None? && At(after, p).None?
    ensures At(CodexKeys(current, before, after, path), p) == At(current, p)
    decreases |p|, 0
  {
    hide Codex;
    hide CodexKeys;
    hide DocDepth;
    var key := p[0];
    KeysAt(current, before, after, path, key);
    if |p| > 1 {
      assert At(map[], p[1..]).None?;
      CodexUnmentionedUntouched(Sub(Get(current, key)), Sub(Get(before, key)), Sub(Get(after, key)), Extend(path, key),
          p[1..]);
    }
  }

  /** Every value the user changed, added or deleted since the install stays as the user left it. */
  lemma {:induction false} CodexUserEditsSurvive(current: Doc, before: Doc, after: Doc, path: string, p: Path)
    requires At(current, p) != At(after, p) && !IsTable(At(current, p))
    ensures At(Codex(current, before, after, path), p) == At(current, p)
    decreases |p|, 1
  {
    if !ProviderPath(path) {
      EditedKeySurvives(current, before, after, path, p);
    } else if CodexAuthGroup(current) != CodexAuthGroup(after) {
      MaskAuthAt(before, p);
      MaskAuthAt(after, p);
      if InAuthGroup(p) {
        UnmentionedKeys(current, MaskAuth(before), MaskAuth(after), path, p);
      } else {
        EditedKeySurvives(current, MaskAuth(before), MaskAuth(after), path, p);
      }
    } else {
      if p[0] == "auth" {
        SameGroup(current, after, p);
      }
      EditedKeySurvives(Put(current, "auth", Get(before, "auth")), before, after, path, p);
    }
  }

  lemma {:induction false} EditedKeySurvives(current: Doc, before: Doc, after: Doc, path: string, p: Path)
    requires At(current, p) != At(after, p) && !IsTable(At(current, p))
    ensures At(CodexKeys(current, before, after, path), p) == At(current, p)
    decreases |p|, 0
  {
    hide Codex;
    hide CodexKeys;
    hide DocDepth;
    var key := p[0];
    KeysAt(current, before, after, path, key);
    if |p| > 1 {
      var c, a := Sub(Get(current, key)), Sub(Get(after, key));
      if At(c, p[1..]) != At(a, p[1..]) {
        CodexUserEditsSurvive(c, Sub(Get(before, key)), a, Extend(path, key), p[1..]);
      }
    }
  }

  // ---------- The authentication group is one unit ----------

  /** If any member differs from what was installed, no member is changed, added or removed. */
  lemma EditedAuthGroupUntouched(current: Doc, before: Doc, after: Doc, path: string)
    requires ProviderPath(path) && CodexAuthGroup(current) != CodexAuthGroup(after)
    ensures CodexAuthGroup(Codex(current, before, after, path)) == CodexAuthGroup(current)
  {
    var r := Codex(current, before, after, path);
    forall p: Path | InAuthGroup(p) ensures At(r, p) == At(current, p) {
      MaskAuthAt(before, p);
      MaskAuthAt(after, p);
      UnmentionedKeys(current, MaskAuth(before), MaskAuth(after), path, p);
    }
    GroupFromPaths(r, current);
  }

  lemma GroupFromPaths(r: Doc, q: Doc)
    requires forall p: Path | InAuthGroup(p) :: At(r, p) == At(q, p)
    ensures CodexAuthGroup(r) == CodexAuthGroup(q)
  {
    forall k | k in AUTH_FIELDS ensures Get(r, k) == Get(q, k) {
      assert InAuthGroup([k]) && At(r, [k]) == At(q, [k]);
    }
    forall k ensures Get(CodexAuthGroup(r).fields, k) == Get(CodexAuthGroup(q).fields, k) {
      if k in AUTH_FIELDS {
        assert Get(r, k) == Get(q, k);
      }
    }
    DocsEqual(CodexAuthGroup(r).fields, CodexAuthGroup(q).fields);
    HeadersFromPaths(r, q, "http_headers");
    HeadersFromPaths(r, q, "env_http_headers");
  }

  lemma HeadersFromPaths(r: Doc, q: Doc, table: string)
    requires table in HEADER_TABLES
    requires forall p: Path | InAuthGroup(p) :: At(r, p) == At(q, p)
    ensures AuthHeaders(Sub(Get(r, table))) == AuthHeaders(Sub(Get(q, table)))
  {
    var x, y := AuthHeaders(Sub(Get(r, table))), AuthHeaders(Sub(Get(q, table)));
    forall n ensures Get(x, n) == Get(y, n) {
      if IsAuthorization(n) {
        assert InAuthGroup([table, n]) && At(r, [table, n]) == At(q, [table, n]);
        assert [table, n][1..] == [n];
        assert At(r, [table, n]) == Get(Sub(Get(r, table)), n);
        assert At(q, [table, n]) == Get(Sub(Get(q, table)), n);
      }
    }
    DocsEqual(x, y);
  }

  /** A header table goes back entry by entry when it is a table or absent everywhere and the user did not delete it;
      it goes back whole when it is as installed; otherwise it stays, and must hold the original Authorization. */
  predicate HeadersGoBack(current: Doc, before: Doc, after: Doc, table: string) {
    var b, a, c := Get(before, table), Get(after, table), Get(current, table);
    || (TableOrAbsent(c) && TableOrAbsent(b) && TableOrAbsent(a) && (c.None? ==> a.None?))
    || c == a
    || AuthHeaders(Sub(c)) == AuthHeaders(Sub(b))
  }

  /** If every member is as installed, the whole group goes back to the original one, if and only if both header
      tables do. */
  lemma UneditedAuthGroupGoesBack(current: Doc, before: Doc, after: Doc, path: string)
    requires ProviderPath(path) && CodexAuthGroup(current) == CodexAuthGroup(after)
    ensures CodexAuthGroup(Codex(current, before, after, path)) == CodexAuthGroup(before)
            <==> forall t | t in HEADER_TABLES :: HeadersGoBack(current, before, after, t)
  {
    var r := Codex(current, before, after, path);
    var c := Put(current, "auth", Get(before, "auth"));
    forall k | k in AUTH_FIELDS ensures Get(r, k) == Get(before, k) {
      KeysAt(c, before, after, path, k);
      SameGroup(current, after, [k]);
      UneditedKeyGoesBack(c, before, after, path, k);
    }
    var g, h := CodexAuthGroup(r), CodexAuthGroup(before);
    forall k ensures Get(g.fields, k) == Get(h.fields, k) {
      if k in AUTH_FIELDS {
        assert Get(r, k) == Get(before, k);
      }
    }
    DocsEqual(g.fields, h.fields);
    HeadersRestored(current, before, after, path, "http_headers");
    HeadersRestored(current, before, after, path, "env_http_headers");
    assert HEADER_TABLES == {"http_headers", "env_http_headers"};
  }

  lemma GroupHeaders(x: Doc, y: Doc, table: string)
    requires table in HEADER_TABLES && CodexAuthGroup(x) == CodexAuthGroup(y)
    ensures AuthHeaders(Sub(Get(x, table))) == AuthHeaders(Sub(Get(y, table)))
  {
    assert CodexAuthGroup(x).headers == CodexAuthGroup(y).headers;
    assert CodexAuthGroup(x).envHeaders == CodexAuthGroup(y).envHeaders;
  }

  lemma HeadersRestored(current: Doc, before: Doc, after: Doc, path: string, table: string)
    requires ProviderPath(path) && table in HEADER_TABLES && CodexAuthGroup(current) == CodexAuthGroup(after)
    ensures AuthHeaders(Sub(Get(Codex(current, before, after, path), table))) == AuthHeaders(Sub(Get(before, table)))
            <==> HeadersGoBack(current, before, after, table)
  {
    hide AuthHeaders;
    var c := Put(current, "auth", Get(before, "auth"));
    var b, a := Get(before, table), Get(after, table);
    KeysAt(c, before, after, path, table);
    assert Get(c, table) == Get(current, table);
    GroupHeaders(current, after, table);
    if b != a && TableOrAbsent(Get(c, table)) && TableOrAbsent(b) && TableOrAbsent(a)
        && (Get(c, table).None? ==> a.None?) {
      WalkedHeadersGoBack(c, before, after, path, table);
    }
  }

  lemma WalkedHeadersGoBack(current: Doc, before: Doc, after: Doc, path: string, table: string)
    requires ProviderPath(path) && table in HEADER_TABLES
    requires TableOrAbsent(Get(current, table)) && TableOrAbsent(Get(before, table)) && TableOrAbsent(Get(after, table))
    requires Get(before, table) != Get(after, table) && (Get(current, table).None? ==> Get(after, table).None?)
    requires AuthHeaders(Sub(Get(current, table))) == AuthHeaders(Sub(Get(after, table)))
    ensures AuthHeaders(Sub(CodexKey(current, before, after, path, table))) == AuthHeaders(Sub(Get(before, table)))
  {
    var c, b, a := Sub(Get(current, table)), Sub(Get(before, table)), Sub(Get(after, table));
    BelowProvider(path, table);
    TableKey(current, before, after, path, table);
    var r := CodexKeys(c, b, a, Extend(path, table));
    forall n | IsAuthorization(n) ensures Get(r, n) == Get(b, n) {
      KeysAt(c, b, a, Extend(path, table), n);
      assert Get(AuthHeaders(c), n) == Get(AuthHeaders(a), n) == Get(c, n) == Get(a, n);
      UneditedKeyGoesBack(c, b, a, Extend(path, table), n);
    }
    forall n ensures Get(AuthHeaders(r), n) == Get(AuthHeaders(b), n) {
      if IsAuthorization(n) {
        assert Get(r, n) == Get(b, n);
      }
    }
    DocsEqual(AuthHeaders(r), AuthHeaders(b));
  }

  function WithHeaders(url: string, headers: Doc): Doc {
    map["base_url" := Leaf(Text(url)), "http_headers" := Table(headers)]
  }

  lemma HeadersOfExample()
    ensures AuthHeaders(map["Authorization" := Leaf(Text("old"))]) != map[]
    ensures AuthHeaders(map["X" := Leaf(Text("x"))]) == map[] && AuthHeaders(map[]) == map[]
  {
    assert IsAuthorization("Authorization");
    assert "Authorization" in AuthHeaders(map["Authorization" := Leaf(Text("old"))]);
  }

  /** The input on which the group goes back only in part. The install deleted Authorization and kept the table for
      its other header; the user deletes the whole table: the address goes back, the Authorization header does not. */
  lemma DeletedHeadersLoseAuthorization(name: string)
    requires '.' !in name
    ensures var before := WithHeaders("old", map["Authorization" := Leaf(Text("old"))]);
            var after := WithHeaders("rai", map["X" := Leaf(Text("x"))]);
            var current: Doc := map["base_url" := Leaf(Text("rai"))];
            var r := Codex(current, before, after, PROVIDERS + name);
            && CodexAuthGroup(current) == CodexAuthGroup(after)
            && Get(r, "base_url") == Get(before, "base_url") && Get(r, "http_headers").None?
            && CodexAuthGroup(r) != CodexAuthGroup(before)
  {
    var before := WithHeaders("old", map["Authorization" := Leaf(Text("old"))]);
    var after := WithHeaders("rai", map["X" := Leaf(Text("x"))]);
    var current: Doc := map["base_url" := Leaf(Text("rai"))];
    var path := PROVIDERS + name;
    ProviderPathDots(name);
    HeadersOfExample();
    var c := Put(current, "auth", Get(before, "auth"));
    KeysAt(c, before, after, path, "base_url");
    KeysAt(c, before, after, path, "http_headers");
    hide CodexKeys;
    hide AuthHeaders;
    assert CodexAuthGroup(current).fields == CodexAuthGroup(after).fields;
    assert !HeadersGoBack(current, before, after, "http_headers");
    UneditedAuthGroupGoesBack(current, before, after, path);
  }

  // ---------- The group, seen from the whole document ----------

  function Provider(doc: Doc, name: string): Doc {
    Sub(Get(Sub(Get(doc, "model_providers")), name))
  }

  ghost predicate GroupKept(current: Doc, before: Doc, after: Doc, name: string) {
    CodexAuthGroup(Provider(current, name)) != CodexAuthGroup(Provider(after, name)) ==>
      CodexAuthGroup(Provider(Codex(current, before, after, ""), name)) == CodexAuthGroup(Provider(current, name))
  }

  ghost predicate GroupProtected(name: string) {
    forall current, before, after :: GroupKept(current, before, after, name)
  }

  lemma NotYetProvider()
    ensures !ProviderPath("") && !ProviderPath("model_providers") && Extend("", "model_providers") == "model_providers"
  {
    assert |PROVIDERS| > |"model_providers"|;
  }

  lemma ProviderPathDots(name: string)
    ensures ProviderPath(Extend("model_providers", name)) <==> '.' !in name
    ensures Extend("model_providers", name) == PROVIDERS + name
  {
    assert Extend("model_providers", name) == "model_providers" + "." + name;
    assert PROVIDERS == "model_providers" + ".";
    assert (PROVIDERS + name)[|PROVIDERS|..] == name;
  }

  /** The tables of a key that the walk passes through, or leaves alone, or replaces whole. */
  lemma WalkKey(current: Doc, before: Doc, after: Doc, path: string, key: string)
    requires !(ProviderPath(path) && key == "auth")
    ensures var r := Sub(Get(CodexKeys(current, before, after, path), key));
            var c, b, a := Get(current, key), Get(before, key), Get(after, key);
            || r == Sub(c)
            || Sub(c) == Sub(a)
            || r == Codex(Sub(c), Sub(b), Sub(a), Extend(path, key))
  {
    KeysAt(current, before, after, path, key);
  }

  lemma UndottedProviderProtected(current: Doc, before: Doc, after: Doc, name: string)
    requires '.' !in name
    ensures GroupKept(current, before, after, name)
  {
    var c, b, a :=
        Sub(Get(current, "model_providers")), Sub(Get(before, "model_providers")), Sub(Get(after, "model_providers"));
    NotYetProvider();
    ProviderPathDots(name);
    WalkKey(current, before, after, "", "model_providers");
    WalkKey(c, b, a, "model_providers", name);
    if CodexAuthGroup(Provider(current, name)) != CodexAuthGroup(Provider(after, name)) {
      EditedAuthGroupUntouched(Provider(current, name), Provider(before, name), Provider(after, name), PROVIDERS
          + name);
    }
  }

  function OneProvider(name: string, url: string, key: string): Doc {
    map["model_providers" :=
        Table(map[name := Table(map["base_url" := Leaf(Text(url)), "env_key" := Leaf(Text(key))])])]
  }

  lemma WalkedTable(current: Doc, before: Doc, after: Doc, path: string, key: string)
    requires !ProviderPath(path) && Get(before, key) != Get(after, key)
    requires IsTable(Get(current, key)) && IsTable(Get(before, key)) && IsTable(Get(after, key))
    ensures Sub(Get(Codex(current, before, after, path), key))
         == Codex(Sub(Get(current, key)), Sub(Get(before, key)), Sub(Get(after, key)), Extend(path, key))
  {
    KeysAt(current, before, after, path, key);
  }

  /** A provider whose quoted name holds a dot is walked like any other table: its old key comes back
      beside an edited address. */
  lemma DottedProviderMixes(name: string)
    requires '.' in name
    ensures !GroupKept(OneProvider(name, "edited", "rai"), OneProvider(name, "old", "old"),
              OneProvider(name, "rai", "rai"), name)
  {
    var current, before, after :=
        OneProvider(name, "edited", "rai"), OneProvider(name, "old", "old"), OneProvider(name, "rai", "rai");
    var c, b, a := Provider(current, name), Provider(before, name), Provider(after, name);
    assert c["base_url"] != a["base_url"] && b["env_key"] != a["env_key"] && b["env_key"] != c["env_key"];
    NotYetProvider();
    ProviderPathDots(name);
    assert Get(Sub(Get(before, "model_providers")), name) != Get(Sub(Get(after, "model_providers")), name);
    WalkedTable(current, before, after, "", "model_providers");
    WalkedTable(Sub(Get(current, "model_providers")), Sub(Get(before, "model_providers")),
        Sub(Get(after, "model_providers")), "model_providers", name);
    var r := Codex(c, b, a, PROVIDERS + name);
    KeysAt(c, b, a, PROVIDERS + name, "env_key");
    assert CodexKey(c, b, a, PROVIDERS + name, "env_key") == Get(b, "env_key");
    assert Provider(Codex(current, before, after, ""), name) == r;
    assert Get(CodexAuthGroup(r).fields, "env_key") != Get(CodexAuthGroup(c).fields, "env_key");
    assert Get(CodexAuthGroup(c).fields, "base_url") != Get(CodexAuthGroup(a).fields, "base_url");
  }

  /** The authentication unit is kept for exactly the provider names without a dot. */
  lemma GroupProtectedExactly(name: string)
    ensures GroupProtected(name) <==> '.' !in name
  {
    if '.' !in name {
      forall current, before, after ensures GroupKept(current, before, after, name) {
        UndottedProviderProtected(current, before, after, name);
      }
    } else {
      DottedProviderMixes(name);
    }
  }

  // ---------- When a restore gives back the original ----------

  /** The key loop passes over the auth of a provider, which goes with its group. */
  predicate Walked(path: string, key: string) {
    !(ProviderPath(path) && key == "auth")
  }

  /** At every key the walk decides, current agrees with before or with after, and so does the authentication group
      as a whole; below a table in all three, or missing from some, the same holds of its keys. */
  ghost predicate Recovers(current: Doc, before: Doc, after: Doc, path: string)
    decreases DocDepth(before) + DocDepth(after), 1
  {
    if !ProviderPath(path) || CodexAuthGroup(current) == CodexAuthGroup(after) then
      forall k :: Walked(path, k) ==> KeyRecovers(current, before, after, path, k)
    else
      MaskDepth(before); MaskDepth(after);
      && CodexAuthGroup(current) == CodexAuthGroup(before)
      && forall k :: Walked(path, k) ==> KeyRecovers(MaskAuth(current), MaskAuth(before), MaskAuth(after), path, k)
  }

  ghost predicate KeyRecovers(current: Doc, before: Doc, after: Doc, path: string, key: string)
    decreases DocDepth(before) + DocDepth(after), 0
  {
    var b, a, c := Get(before, key), Get(after, key), Get(current, key);
    if b != a && TableOrAbsent(b) && TableOrAbsent(a) && TableOrAbsent(c) && (c.None? ==> a.None?) then
      SubDepth(before, key); SubDepth(after, key);
      Recovers(Sub(c), Sub(b), Sub(a), Extend(path, key))
    else c == b || c == a
  }

  /** Restoring current gives exactly before, if and only if current agrees with one of the snapshots key by key. */
  lemma {:induction false} RestoreRecoversExactly(current: Doc, before: Doc, after: Doc, path: string)
    ensures Codex(current, before, after, path) == before <==> Recovers(current, before, after, path)
    decreases DocDepth(before) + DocDepth(after), 2
  {
    hide CodexKeys;
    hide CodexKey;
    hide KeyRecovers;
    hide DocDepth;
    if !ProviderPath(path) {
      KeysRecoverExactly(current, before, after, path);
    } else if CodexAuthGroup(current) == CodexAuthGroup(after) {
      var c := Put(current, "auth", Get(before, "auth"));
      KeysRecoverExactly(c, before, after, path);
      forall k | Walked(path, k)
        ensures KeyRecovers(c, before, after, path, k) <==> KeyRecovers(current, before, after, path, k)
      {
        KeyRecoversReads(c, current, before, after, path, k);
      }
    } else {
      MaskDepth(before);
      MaskDepth(after);
      MaskedRestore(current, before, after, path);
      KeysRecoverExactly(MaskAuth(current), MaskAuth(before), MaskAuth(after), path);
    }
  }

  lemma KeyRecoversReads(c1: Doc, c2: Doc, before: Doc, after: Doc, path: string, key: string)
    requires Get(c1, key) == Get(c2, key)
    ensures KeyRecovers(c1, before, after, path, key) <==> KeyRecovers(c2, before, after, path, key)
  {
  }

  lemma {:induction false} KeysRecoverExactly(current: Doc, before: Doc, after: Doc, path: string)
    requires ProviderPath(path) ==> Get(current, "auth") == Get(before, "auth")
    ensures CodexKeys(current, before, after, path) == before
            <==> forall k :: Walked(path, k) ==> KeyRecovers(current, before, after, path, k)
    decreases DocDepth(before) + DocDepth(after), 1
  {
    hide Codex;
    hide CodexKeys;
    hide KeyRecovers;
    hide DocDepth;
    forall k
      ensures CodexKey(current, before, after, path, k) == Get(before, k)
              <==> (Walked(path, k) ==> KeyRecovers(current, before, after, path, k))
    {
      if Walked(path, k) {
        hide CodexKey;
        KeyRecoversExactly(current, before, after, path, k);
      }
    }
    KeysEqual(current, before, after, path, before);
  }

  lemma KeysEqual(current: Doc, before: Doc, after: Doc, path: string, wanted: Doc)
    ensures CodexKeys(current, before, after, path) == wanted
            <==> forall k :: CodexKey(current, before, after, path, k) == Get(wanted, k)
  {
    hide CodexKeys;
    hide CodexKey;
    var restored := CodexKeys(current, before, after, path);
    forall k ensures Get(restored, k) == CodexKey(current, before, after, path, k) {
      KeysAt(current, before, after, path, k);
    }
    if forall k :: CodexKey(current, before, after, path, k) == Get(wanted, k) {
      DocsEqual(restored, wanted);
    }
  }

  lemma {:induction false} KeyRecoversExactly(current: Doc, before: Doc, after: Doc, path: string, key: string)
    requires Walked(path, key)
    ensures CodexKey(current, before, after, path, key) == Get(before, key)
            <==> KeyRecovers(current, before, after, path, key)
    decreases DocDepth(before) + DocDepth(after), 0
  {
    hide Codex;
    hide CodexKeys;
    hide Recovers;
    hide DocDepth;
    var b, a, c := Get(before, key), Get(after, key), Get(current, key);
    if b != a && TableOrAbsent(b) && TableOrAbsent(a) && TableOrAbsent(c) && (c.None? ==> a.None?) {
      SubDepth(before, key);
      SubDepth(after, key);
      RestoreRecoversExactly(Sub(c), Sub(b), Sub(a), Extend(path, key));
    }
  }

  /** A provider is its authentication group and the rest. */
  lemma GroupAndRest(x: Doc, y: Doc)
    ensures x == y <==> CodexAuthGroup(x) == CodexAuthGroup(y) && MaskAuth(x) == MaskAuth(y)
  {
    if CodexAuthGroup(x) == CodexAuthGroup(y) && MaskAuth(x) == MaskAuth(y) {
      forall k ensures Get(x, k) == Get(y, k) {
        assert Get(MaskAuth(x), k) == Get(MaskAuth(y), k);
        if k in AUTH_FIELDS {
          assert Get(CodexAuthGroup(x).fields, k) == Get(CodexAuthGroup(y).fields, k);
        } else if k in HEADER_TABLES && IsTable(Get(x, k)) {
          SameHeaders(Sub(Get(x, k)), Sub(Get(y, k)));
        }
      }
      DocsEqual(x, y);
    }
  }

  lemma SameHeaders(x: Doc, y: Doc)
    requires AuthHeaders(x) == AuthHeaders(y) && OtherHeaders(x) == OtherHeaders(y)
    ensures x == y
  {
    forall n ensures Get(x, n) == Get(y, n) {
      assert Get(AuthHeaders(x), n) == Get(AuthHeaders(y), n) && Get(OtherHeaders(x), n) == Get(OtherHeaders(y), n);
    }
    DocsEqual(x, y);
  }

  /** With the group as in the original, masking before or after the restore makes no difference. */
  lemma MaskedKey(current: Doc, before: Doc, after: Doc, path: string, key: string)
    requires ProviderPath(path) && CodexAuthGroup(current) == CodexAuthGroup(before)
    ensures var b, a := MaskAuth(before), MaskAuth(after);
            Get(MaskAuth(CodexKeys(current, b, a, path)), key) == CodexKey(MaskAuth(current), b, a, path, key)
  {
    var b, a, c := MaskAuth(before), MaskAuth(after), MaskAuth(current);
    var restored := CodexKeys(current, b, a, path);
    KeysAt(current, b, a, path, key);
    assert Get(MaskAuth(restored), key) == Get(MaskAuth(restored), key);
    if key in HEADER_TABLES {
      MaskedHeaders(current, before, after, path, key);
    } else if key !in AUTH_FIELDS {
      CodexKeyReads(current, b, a, c, b, a, path, key);
    }
  }

  function MaskedTable(n: Option<Node>): Option<Node> {
    if IsTable(n) then Some(Table(OtherHeaders(Sub(n)))) else n
  }

  lemma MaskedHeaders(current: Doc, before: Doc, after: Doc, path: string, table: string)
    requires ProviderPath(path) && table in HEADER_TABLES && CodexAuthGroup(current) == CodexAuthGroup(before)
    ensures var b, a := MaskAuth(before), MaskAuth(after);
            MaskedTable(CodexKey(current, b, a, path, table)) == CodexKey(MaskAuth(current), b, a, path, table)
  {
    var b, a, c := MaskAuth(before), MaskAuth(after), MaskAuth(current);
    var bt, at, ct := Get(b, table), Get(a, table), Get(current, table);
    hide CodexKey;
    hide MaskAuth;
    hide CodexAuthGroup;
    hide AuthHeaders;
    hide OtherHeaders;
    GroupHeaders(current, before, table);
    if !IsTable(Get(before, table)) {
      OnlyTablesHoldHeaders(ct, Get(before, table));
    }
    MaskedHeaderKey(before, table);
    MaskedHeaderKey(after, table);
    MaskedHeaderKey(current, table);
    NoneLeft(Sub(Get(before, table)));
    NoneLeft(Sub(Get(after, table)));
    if bt != at && TableOrAbsent(ct) && TableOrAbsent(bt) && TableOrAbsent(at) && (ct.None? ==> at.None?) {
      MaskedWalk(current, b, a, path, table);
    } else {
      PlainKey(current, b, a, path, table);
      PlainKey(c, b, a, path, table);
    }
  }

  /** Nothing below the key is looked at. */
  lemma PlainKey(current: Doc, before: Doc, after: Doc, path: string, key: string)
    requires Walked(path, key)
    requires var b, a, c := Get(before, key), Get(after, key), Get(current, key);
             !(b != a && TableOrAbsent(b) && TableOrAbsent(a) && TableOrAbsent(c) && (c.None? ==> a.None?))
    ensures CodexKey(current, before, after, path, key)
         == if Get(current, key) == Get(after, key) then Get(before, key) else Get(current, key)
  {
  }

  lemma NoneLeft(headers: Doc)
    ensures AuthHeaders(OtherHeaders(headers)) == map[] && AuthHeaders(map[]) == map[]
    ensures OtherHeaders(OtherHeaders(headers)) == OtherHeaders(headers)
  {
  }

  lemma MaskedWalk(current: Doc, b: Doc, a: Doc, path: string, table: string)
    requires ProviderPath(path) && table in HEADER_TABLES
    requires AuthHeaders(Sub(Get(b, table))) == AuthHeaders(Sub(Get(a, table))) == map[]
    requires TableOrAbsent(Get(current, table)) && TableOrAbsent(Get(b, table)) && TableOrAbsent(Get(a, table))
    requires Get(b, table) != Get(a, table) && (Get(current, table).None? ==> Get(a, table).None?)
    requires Get(b, table).None? ==> MaskedTable(Get(current, table)) == Get(current, table)
    ensures MaskedTable(CodexKey(current, b, a, path, table)) == CodexKey(MaskAuth(current), b, a, path, table)
  {
    var c := MaskAuth(current);
    var ct, bt, at := Sub(Get(current, table)), Sub(Get(b, table)), Sub(Get(a, table));
    assert Get(c, table) == MaskedTable(Get(current, table));
    var inner, masked :=
        CodexKeys(ct, bt, at, Extend(path, table)), CodexKeys(Sub(Get(c, table)), bt, at, Extend(path, table));
    BelowProvider(path, table);
    TableKey(current, b, a, path, table);
    TableKey(c, b, a, path, table);
    forall n ensures Get(OtherHeaders(inner), n) == Get(masked, n) {
      MaskedEntry(ct, bt, at, Extend(path, table), n);
    }
    DocsEqual(OtherHeaders(inner), masked);
  }

  lemma MaskedEntry(current: Doc, before: Doc, after: Doc, path: string, name: string)
    requires AuthHeaders(before) == AuthHeaders(after) == map[]
    ensures Get(OtherHeaders(CodexKeys(current, before, after, path)), name)
         == Get(CodexKeys(OtherHeaders(current), before, after, path), name)
  {
    hide CodexKeys;
    hide CodexKey;
    KeysAt(current, before, after, path, name);
    KeysAt(OtherHeaders(current), before, after, path, name);
    if IsAuthorization(name) {
      assert name !in AuthHeaders(before) && name !in AuthHeaders(after);
      UnlistedKey(OtherHeaders(current), before, after, path, name);
    } else {
      CodexKeyReads(current, before, after, OtherHeaders(current), before, after, path, name);
    }
  }

  lemma OnlyTablesHoldHeaders(c: Option<Node>, b: Option<Node>)
    requires AuthHeaders(Sub(c)) == AuthHeaders(Sub(b)) && !IsTable(b)
    ensures MaskedTable(c) == c
  {
    assert AuthHeaders(map[]) == map[];
    if IsTable(c) {
      forall n ensures Get(OtherHeaders(Sub(c)), n) == Get(Sub(c), n) {
        assert Get(AuthHeaders(Sub(c)), n).None?;
      }
      DocsEqual(OtherHeaders(Sub(c)), Sub(c));
    }
  }

  /** With the group edited: it must be the original one, and the rest must recover without it. */
  lemma MaskedRestore(current: Doc, before: Doc, after: Doc, path: string)
    requires ProviderPath(path) && CodexAuthGroup(current) != CodexAuthGroup(after)
    ensures var b, a := MaskAuth(before), MaskAuth(after);
            Codex(current, before, after, path) == before
            <==> CodexAuthGroup(current) == CodexAuthGroup(before) && CodexKeys(MaskAuth(current), b, a, path) == b
  {
    var b, a, c := MaskAuth(before), MaskAuth(after), MaskAuth(current);
    var restored := CodexKeys(current, b, a, path);
    EditedAuthGroupUntouched(current, before, after, path);
    GroupAndRest(restored, before);
    hide CodexKeys;
    hide CodexKey;
    hide CodexAuthGroup;
    hide MaskAuth;
    hide DocDepth;
    if CodexAuthGroup(current) == CodexAuthGroup(before) {
      forall k ensures Get(MaskAuth(restored), k) == Get(CodexKeys(c, b, a, path), k) {
        MaskedKey(current, before, after, path, k);
        KeysAt(c, b, a, path, k);
      }
      DocsEqual(MaskAuth(restored), CodexKeys(c, b, a, path));
    }
  }

  // ---------- Restoring twice ----------

  /** Restoring twice is restoring once, for every current document and every pair of snapshots. */
  lemma {:induction false} CodexIsIdempotent(current: Doc, before: Doc, after: Doc, path: string)
    ensures Codex(Codex(current, before, after, path), before, after, path) == Codex(current, before, after, path)
    decreases DocDepth(before) + DocDepth(after), 2
  {
    var once := Codex(current, before, after, path);
    if !ProviderPath(path) {
      KeysTwice(current, before, after, path);
    } else if CodexAuthGroup(current) != CodexAuthGroup(after) {
      EditedAuthGroupUntouched(current, before, after, path);
      MaskDepth(before);
      MaskDepth(after);
      KeysTwice(current, MaskAuth(before), MaskAuth(after), path);
    } else {
      var c := Put(current, "auth", Get(before, "auth"));
      KeysAt(c, before, after, path, "auth");
      if CodexAuthGroup(once) == CodexAuthGroup(after) {
        DocsEqual(Put(once, "auth", Get(before, "auth")), once);
        KeysTwice(c, before, after, path);
      } else {
        var b, a := MaskAuth(before), MaskAuth(after);
        forall k ensures Get(CodexKeys(once, b, a, path), k) == Get(once, k) {
          KeysAt(once, b, a, path, k);
          KeysAt(c, before, after, path, k);
          if k in HEADER_TABLES {
            SettledHeaders(current, once, before, after, path, k);
          } else if k !in AUTH_FIELDS {
            KeyTwice(c, once, before, after, path, k);
            CodexKeyReads(once, before, after, once, b, a, path, k);
          }
        }
        DocsEqual(CodexKeys(once, b, a, path), once);
      }
    }
  }

  lemma {:induction false} KeysTwice(current: Doc, before: Doc, after: Doc, path: string)
    ensures CodexKeys(CodexKeys(current, before, after, path), before, after, path)
              == CodexKeys(current, before, after, path)
    decreases DocDepth(before) + DocDepth(after), 1
  {
    var once := CodexKeys(current, before, after, path);
    forall k ensures Get(CodexKeys(once, before, after, path), k) == Get(once, k) {
      KeysAt(current, before, after, path, k);
      KeysAt(once, before, after, path, k);
      KeyTwice(current, once, before, after, path, k);
    }
    DocsEqual(CodexKeys(once, before, after, path), once);
  }

  lemma {:induction false} KeyTwice(current: Doc, once: Doc, before: Doc, after: Doc, path: string, key: string)
    requires Get(once, key) == CodexKey(current, before, after, path, key)
    ensures CodexKey(once, before, after, path, key) == Get(once, key)
    decreases DocDepth(before) + DocDepth(after), 0
  {
    hide Codex;
    hide CodexKeys;
    hide DocDepth;
    var b, a, c := Get(before, key), Get(after, key), Get(current, key);
    if b != a && TableOrAbsent(b) && TableOrAbsent(a) && TableOrAbsent(c) && (c.None? ==> a.None?)
        && !(ProviderPath(path) && key == "auth") {
      SubDepth(before, key);
      SubDepth(after, key);
      CodexIsIdempotent(Sub(c), Sub(b), Sub(a), Extend(path, key));
      TableKey(current, before, after, path, key);
      if Get(once, key).Some? {
        TableKey(once, before, after, path, key);
      }
    }
  }

  /** After the group went back, its header tables stay as they are under the masked snapshots too. */
  lemma {:induction false} SettledHeaders(current: Doc, once: Doc, before: Doc, after: Doc, path: string, key: string)
    requires ProviderPath(path) && key in HEADER_TABLES && CodexAuthGroup(current) == CodexAuthGroup(after)
    requires Get(once, key) == CodexKey(Put(current, "auth", Get(before, "auth")), before, after, path, key)
    ensures CodexKey(once, MaskAuth(before), MaskAuth(after), path, key) == Get(once, key)
    decreases DocDepth(before) + DocDepth(after), 1
  {
    var c := Put(current, "auth", Get(before, "auth"));
    var b, a := MaskAuth(before), MaskAuth(after);
    assert key != "auth" && Get(c, key) == Get(current, key);
    MaskedHeaderKey(before, key);
    MaskedHeaderKey(after, key);
    if Get(b, key) == Get(a, key) || (Get(once, key).None? && Get(a, key).Some?) {
    } else if TableOrAbsent(Get(c, key)) && TableOrAbsent(Get(before, key)) && TableOrAbsent(Get(after, key)) {
      SettledHeaderTable(c, once, before, after, path, key);
    } else {
      GroupOfTable(current, after, key);
    }
  }

  lemma MaskedHeaderKey(provider: Doc, key: string)
    requires key in HEADER_TABLES
    ensures Get(MaskAuth(provider), key) ==
            (if IsTable(Get(provider, key)) then Some(Table(OtherHeaders(Sub(Get(provider, key)))))
                else Get(provider, key))
  {
  }

  lemma GroupOfTable(c: Doc, a: Doc, key: string)
    requires key in HEADER_TABLES && CodexAuthGroup(c) == CodexAuthGroup(a)
    ensures Get(c, key) == Some(Table(OtherHeaders(Sub(Get(a, key))))) && IsTable(Get(a, key)) ==>
              Get(c, key) == Get(a, key)
  {
    if Get(c, key) == Some(Table(OtherHeaders(Sub(Get(a, key))))) && IsTable(Get(a, key)) {
      var x, y := Sub(Get(c, key)), Sub(Get(a, key));
      assert AuthHeaders(x) == AuthHeaders(y);
      forall n ensures Get(x, n) == Get(y, n) {
        if IsAuthorization(n) {
          assert Get(AuthHeaders(x), n) == Get(AuthHeaders(y), n) && Get(x, n) == None;
        }
      }
      DocsEqual(x, y);
    }
  }

  lemma {:induction false} SettledHeaderTable(c: Doc, once: Doc, before: Doc, after: Doc, path: string, key: string)
    requires ProviderPath(path) && key in HEADER_TABLES
    requires TableOrAbsent(Get(c, key)) && TableOrAbsent(Get(before, key)) && TableOrAbsent(Get(after, key))
    requires Get(once, key) == CodexKey(c, before, after, path, key)
    requires Get(MaskAuth(before), key) != Get(MaskAuth(after), key)
    requires !(Get(once, key).None? && Get(MaskAuth(after), key).Some?)
    ensures CodexKey(once, MaskAuth(before), MaskAuth(after), path, key) == Get(once, key)
    decreases DocDepth(before) + DocDepth(after), 0
  {
    hide CodexKeys;
    hide DocDepth;
    hide MaskAuth;
    hide CodexKey;
    var b, a := MaskAuth(before), MaskAuth(after);
    MaskedHeaderKey(before, key);
    MaskedHeaderKey(after, key);
    var sub := Extend(path, key);
    BelowProvider(path, key);
    DeletedKeyStays(c, before, after, path, key);
    TableKey(c, before, after, path, key);
    TableKey(once, b, a, path, key);
    var h := Sub(Get(once, key));
    var hb, ha := Sub(Get(before, key)), Sub(Get(after, key));
    var mb, ma := Sub(Get(b, key)), Sub(Get(a, key));
    assert h == CodexKeys(Sub(Get(c, key)), hb, ha, sub);
    forall n ensures Get(CodexKeys(h, mb, ma, sub), n) == Get(h, n) {
      KeysAt(Sub(Get(c, key)), hb, ha, sub, n);
      KeysAt(h, mb, ma, sub, n);
      if IsAuthorization(n) {
        assert Get(mb, n) == Get(ma, n) == None;
        UnlistedKey(h, mb, ma, sub, n);
      } else {
        SubDepth(before, key);
        SubDepth(after, key);
        KeyTwice(Sub(Get(c, key)), h, hb, ha, sub, n);
        CodexKeyReads(h, hb, ha, h, mb, ma, sub, n);
      }
    }
    DocsEqual(CodexKeys(h, mb, ma, sub), h);
  }

  // ---------- The group, member by member ----------

  /** Once the address of a provider is edited, no member of its authentication group changes, and none is added:
      neither
      the fields nor an Authorization header, in whatever case it is written. */
  lemma EditedAddressKeepsCredentials(current: Doc, before: Doc, after: Doc, name: string, key: string, header: string)
    requires '.' !in name
    requires Get(Provider(current, name), "base_url") != Get(Provider(after, name), "base_url")
    requires key in {"base_url", "auth", "experimental_bearer_token", "env_key", "env_key_instructions",
              "requires_openai_auth"}
    requires |header| == 13 && forall i | 0 <= i < 13 ::
              header[i] == "authorization"[i] || header[i] == "AUTHORIZATION"[i]
    ensures var r, c := Provider(Codex(current, before, after, ""), name), Provider(current, name);
            && Get(r, key) == Get(c, key)
            && Get(Sub(Get(r, "http_headers")), header) == Get(Sub(Get(c, "http_headers")), header)
            && Get(Sub(Get(r, "env_http_headers")), header) == Get(Sub(Get(c, "env_http_headers")), header)
  {
    var r, c, a := Provider(Codex(current, before, after, ""), name), Provider(current, name), Provider(after, name);
    assert Get(CodexAuthGroup(c).fields, "base_url") == Get(c, "base_url");
    assert Get(CodexAuthGroup(a).fields, "base_url") == Get(a, "base_url");
    UndottedProviderProtected(current, before, after, name);
    GroupMembers(r, c, key, header);
  }

  lemma GroupMembers(x: Doc, y: Doc, key: string, header: string)
    requires CodexAuthGroup(x) == CodexAuthGroup(y)
    requires key in {"base_url", "auth", "experimental_bearer_token", "env_key", "env_key_instructions",
              "requires_openai_auth"}
    requires |header| == 13 && forall i | 0 <= i < 13 ::
              header[i] == "authorization"[i] || header[i] == "AUTHORIZATION"[i]
    ensures Get(x, key) == Get(y, key)
    ensures Get(Sub(Get(x, "http_headers")), header) == Get(Sub(Get(y, "http_headers")), header)
    ensures Get(Sub(Get(x, "env_http_headers")), header) == Get(Sub(Get(y, "env_http_headers")), header)
  {
    assert Get(CodexAuthGroup(x).fields, key) == Get(CodexAuthGroup(y).fields, key);
    FoldedIsAuthorization(header);
    GroupHeaders(x, y, "http_headers");
    GroupHeaders(x, y, "env_http_headers");
    HeaderReads(Sub(Get(x, "http_headers")), Sub(Get(y, "http_headers")), header);
    HeaderReads(Sub(Get(x, "env_http_headers")), Sub(Get(y, "env_http_headers")), header);
  }

  lemma FoldedIsAuthorization(header: string)
    requires |header| == 13 && forall i | 0 <= i < 13 ::
              header[i] == "authorization"[i] || header[i] == "AUTHORIZATION"[i]
    ensures IsAuthorization(header)
  {
  }

  lemma HeaderReads(x: Doc, y: Doc, header: string)
    requires AuthHeaders(x) == AuthHeaders(y) && IsAuthorization(header)
    ensures Get(x, header) == Get(y, header)
  {
    assert Get(AuthHeaders(x), header) == Get(AuthHeaders(y), header);
  }

  /** Every other setting of the provider is merged by itself, whatever was edited beside it, and so is every other
      header. */
  lemma OtherProviderFieldsMerge(current: Doc, before: Doc, after: Doc, name: string, key: string)
    requires '.' !in name
    requires key !in {"base_url", "auth", "experimental_bearer_token", "env_key", "env_key_instructions",
                      "requires_openai_auth", "http_headers", "env_http_headers"}
    requires !IsTable(Get(current, key)) && !IsTable(Get(before, key)) && !IsTable(Get(after, key))
    ensures Get(Codex(current, before, after, "model_providers." + name), key)
         == if Get(current, key) == Get(after, key) then Get(before, key) else Get(current, key)
  {
    OutsideGroup(before, key);
    OutsideGroup(after, key);
    FieldOutsideGroup(current, before, after, "model_providers." + name, key);
  }

  lemma OutsideGroup(provider: Doc, key: string)
    requires key !in {"base_url", "auth", "experimental_bearer_token", "env_key", "env_key_instructions",
                      "requires_openai_auth", "http_headers", "env_http_headers"}
    ensures Get(MaskAuth(provider), key) == Get(provider, key)
  {
  }

  lemma FieldOutsideGroup(current: Doc, before: Doc, after: Doc, path: string, key: string)
    requires Get(MaskAuth(before), key) == Get(before, key) && Get(MaskAuth(after), key) == Get(after, key)
              && key != "auth"
    requires !IsTable(Get(current, key)) && !IsTable(Get(before, key)) && !IsTable(Get(after, key))
    ensures Get(Codex(current, before, after, path), key)
         == if Get(current, key) == Get(after, key) then Get(before, key) else Get(current, key)
  {
    hide CodexKeys;
    hide CodexKey;
    hide CodexAuthGroup;
    hide ProviderPath;
    if !ProviderPath(path) {
      KeysAt(current, before, after, path, key);
      FieldKey(current, before, after, path, key);
    } else if CodexAuthGroup(current) != CodexAuthGroup(after) {
      KeysAt(current, MaskAuth(before), MaskAuth(after), path, key);
      FieldKey(current, MaskAuth(before), MaskAuth(after), path, key);
    } else {
      var c := Put(current, "auth", Get(before, "auth"));
      KeysAt(c, before, after, path, key);
      FieldKey(c, before, after, path, key);
    }
  }

  /** And so is every header but Authorization. */
  lemma OtherHeadersMerge(current: Doc, before: Doc, after: Doc, name: string, table: string, header: string)
    requires '.' !in name && table in {"http_headers", "env_http_headers"}
    requires |header| != 13 || exists i ::
              0 <= i < 13 && header[i] != "authorization"[i] && header[i] != "AUTHORIZATION"[i]
    requires IsTable(Get(current, table)) && IsTable(Get(before, table)) && IsTable(Get(after, table))
    requires var c, b, a := Sub(Get(current, table)), Sub(Get(before, table)), Sub(Get(after, table));
             !IsTable(Get(c, header)) && !IsTable(Get(b, header)) && !IsTable(Get(a, header))
    ensures var c, b, a := Sub(Get(current, table)), Sub(Get(before, table)), Sub(Get(after, table));
            Get(Sub(Get(Codex(current, before, after, "model_providers." + name), table)), header)
            == if Get(c, header) == Get(a, header) then Get(b, header) else Get(c, header)
  {
    hide Codex;
    hide IsAuthorization;
    ProviderPathDots(name);
    NotAuthorization(header);
    HeaderOutsideGroup(current, before, after, "model_providers." + name, table, header);
  }

  lemma NotAuthorization(header: string)
    requires |header| != 13 || exists i ::
              0 <= i < 13 && header[i] != "authorization"[i] && header[i] != "AUTHORIZATION"[i]
    ensures !IsAuthorization(header)
  {
    if |header| == 13 {
      var i :| 0 <= i < 13 && header[i] != "authorization"[i] && header[i] != "AUTHORIZATION"[i];
      assert Lower(header[i]) != "authorization"[i];
    }
  }

  lemma HeaderOutsideGroup(current: Doc, before: Doc, after: Doc, path: string, table: string, header: string)
    requires ProviderPath(path) && table in HEADER_TABLES && !IsAuthorization(header)
    requires IsTable(Get(current, table)) && IsTable(Get(before, table)) && IsTable(Get(after, table))
    requires var c, b, a := Sub(Get(current, table)), Sub(Get(before, table)), Sub(Get(after, table));
             !IsTable(Get(c, header)) && !IsTable(Get(b, header)) && !IsTable(Get(a, header))
    ensures var c, b, a := Sub(Get(current, table)), Sub(Get(before, table)), Sub(Get(after, table));
            Get(Sub(Get(Codex(current, before, after, path), table)), header)
            == if Get(c, header) == Get(a, header) then Get(b, header) else Get(c, header)
  {
    hide CodexKeys;
    hide CodexKey;
    hide CodexAuthGroup;
    hide IsAuthorization;
    hide ProviderPath;
    if CodexAuthGroup(current) != CodexAuthGroup(after) {
      MaskedHeaderKey(before, table);
      MaskedHeaderKey(after, table);
      HeaderMerges(current, MaskAuth(before), MaskAuth(after), path, table, header);
    } else {
      HeaderMerges(Put(current, "auth", Get(before, "auth")), before, after, path, table, header);
    }
  }

  lemma HeaderMerges(current: Doc, before: Doc, after: Doc, path: string, table: string, header: string)
    requires ProviderPath(path) && table in HEADER_TABLES
    requires IsTable(Get(current, table)) && IsTable(Get(before, table)) && IsTable(Get(after, table))
    requires var c, b, a := Sub(Get(current, table)), Sub(Get(before, table)), Sub(Get(after, table));
             !IsTable(Get(c, header)) && !IsTable(Get(b, header)) && !IsTable(Get(a, header))
    ensures var c, b, a := Sub(Get(current, table)), Sub(Get(before, table)), Sub(Get(after, table));
            Get(Sub(Get(CodexKeys(current, before, after, path), table)), header)
            == if Get(c, header) == Get(a, header) then Get(b, header) else Get(c, header)
  {
    hide CodexKeys;
    var c, b, a := Sub(Get(current, table)), Sub(Get(before, table)), Sub(Get(after, table));
    KeysAt(current, before, after, path, table);
    BelowProvider(path, table);
    if Get(before, table) != Get(after, table) {
      TableKey(current, before, after, path, table);
      KeysAt(c, b, a, Extend(path, table), header);
      PlainField(c, b, a, Extend(path, table), header);
    }
  }

  lemma FieldKey(current: Doc, before: Doc, after: Doc, path: string, key: string)
    requires key != "auth"
    requires !IsTable(Get(current, key)) && !IsTable(Get(before, key)) && !IsTable(Get(after, key))
    ensures CodexKey(current, before, after, path, key)
         == if Get(current, key) == Get(after, key) then Get(before, key) else Get(current, key)
  {
  }

  /** Outside the providers every setting is merged by itself, at any depth. */
  lemma OtherFieldsMerge(current: Doc, before: Doc, after: Doc, p: Path)
    requires p[0] !in {"", "model_providers"} && '.' !in p[0]
    requires forall n | 0 < n < |p| ::
              IsTable(At(current, p[..n])) && IsTable(At(before, p[..n])) && IsTable(At(after, p[..n]))
    requires !IsTable(At(current, p)) && !IsTable(At(before, p)) && !IsTable(At(after, p))
    ensures At(Codex(current, before, after, ""), p)
         == if At(current, p) == At(after, p) then At(before, p) else At(current, p)
  {
    NotYetProvider();
    FieldMerges(current, before, after, "", p);
  }

  /** The path does not lead into the providers. */
  predicate Elsewhere(path: string) {
    path != "" && (|path| < 16 || path[..16] != "model_providers.") && path != "model_providers"
  }

  lemma {:induction false} FieldMerges(current: Doc, before: Doc, after: Doc, path: string, p: Path)
    requires Elsewhere(path) || (path == "" && p[0] !in {"", "model_providers"} && '.' !in p[0])
    requires forall n | 0 < n < |p| ::
              IsTable(At(current, p[..n])) && IsTable(At(before, p[..n])) && IsTable(At(after, p[..n]))
    requires !IsTable(At(current, p)) && !IsTable(At(before, p)) && !IsTable(At(after, p))
    ensures At(Codex(current, before, after, path), p)
         == if At(current, p) == At(after, p) then At(before, p) else At(current, p)
    decreases |p|
  {
    hide CodexKeys;
    hide CodexKey;
    hide DocDepth;
    var key := p[0];
    StaysElsewhere(path, key);
    assert Codex(current, before, after, path) == CodexKeys(current, before, after, path);
    hide Codex;
    KeysAt(current, before, after, path, key);
    if |p| == 1 {
      PlainField(current, before, after, path, key);
    } else {
      assert p[..1] == [key] && At(current, p[..1]) == Get(current, key);
      assert At(before, p[..1]) == Get(before, key) && At(after, p[..1]) == Get(after, key);
      if Get(before, key) == Get(after, key) {
        PlainKey(current, before, after, path, key);
      } else {
        var c, b, a := Sub(Get(current, key)), Sub(Get(before, key)), Sub(Get(after, key));
        TableKey(current, before, after, path, key);
        forall n | 0 < n < |p[1..]|
          ensures IsTable(At(c, p[1..][..n])) && IsTable(At(b, p[1..][..n])) && IsTable(At(a, p[1..][..n]))
        {
          assert p[..n+1][1..] == p[1..][..n] && p[..n+1][0] == key;
          assert IsTable(At(current, p[..n+1]));
        }
        FieldMerges(c, b, a, Extend(path, key), p[1..]);
      }
    }
  }

  lemma PlainField(current: Doc, before: Doc, after: Doc, path: string, key: string)
    requires !ProviderPath(path)
    requires !IsTable(Get(current, key)) && !IsTable(Get(before, key)) && !IsTable(Get(after, key))
    ensures CodexKey(current, before, after, path, key)
         == if Get(current, key) == Get(after, key) then Get(before, key) else Get(current, key)
  {
  }

  lemma StaysElsewhere(path: string, key: string)
    requires Elsewhere(path) || (path == "" && key !in {"", "model_providers"} && '.' !in key)
    ensures Elsewhere(Extend(path, key)) && !ProviderPath(path)
  {
    assert |PROVIDERS| == 16;
    if path == "" {
      if |key| >= 16 {
        assert key[15] in key;
      }
    } else {
      var longer := Extend(path, key);
      var stem := "model_providers";
      assert longer[|path|] == '.' && |stem| == 15;
      assert forall j | 0 <= j < 15 :: stem[j] != '.';
      if |path| >= 16 {
        assert longer[..16] == path[..16];
      } else if |longer| >= 16 {
        assert |path| < 15 ==> longer[..16][|path|] == '.' && (stem + ".")[|path|] == stem[|path|];
        assert |path| == 15 ==> longer[..16] == path + "." && (path + ".")[..15] == path && (stem + ".")[..15] == stem;
      }
    }
  }
}
