/** The three-way restore of internal/rai/client_config_file.go: undo what rai installed in a
    client configuration, keep what the user edited since. */
module ClientRestore {
  import opened Wrappers
  import opened ConfigTree
  import opened NamedProviders

  const NAMED_PROVIDERS := "custom_providers"

  /** Inside these tables an entry is compared and restored as one block. */
  predicate AtomicPath(path: string) {
    path == "providers" || path == "provider" || path == "model" || path == "env"
  }

  // ---------- The tree restore, key by key ----------

  ghost function RestoreKey(current: Doc, before: Doc, after: Doc, path: string, key: string): Option<Node>
    decreases DocDepth(before) + DocDepth(after), 0
  {
    var b, a, c := Get(before, key), Get(after, key), Get(current, key);
    if b == a then c
    else if key == NAMED_PROVIDERS && path == "" then RestoreNamed(c, b, a)
    else if !AtomicPath(path) && TableOrAbsent(b) && TableOrAbsent(a) && TableOrAbsent(c) then
      if c.None? && a.Some? then None
      else
        SubDepth(before, key); SubDepth(after, key);
        var inner := Restore(Sub(c), Sub(b), Sub(a), Extend(path, key));
        if inner != map[] || b.Some? then Some(Table(inner)) else None
    else if c == a then b
    else c
  }

  ghost function Restore(current: Doc, before: Doc, after: Doc, path: string): Doc
    decreases DocDepth(before) + DocDepth(after), 1
  {
    map k | k in current.Keys + before.Keys + after.Keys && RestoreKey(current, before, after, path, k).Some?
      :: RestoreKey(current, before, after, path, k).value
  }

  lemma RestoreAt(current: Doc, before: Doc, after: Doc, path: string, key: string)
    ensures Get(Restore(current, before, after, path), key) == RestoreKey(current, before, after, path, key)
  {
  }

  /** The key loop, in whatever order the keys come. */
  method RestoreClientConfig(current: Doc, before: Doc, after: Doc, path: string) returns (restored: Doc)
    ensures restored == Restore(current, before, after, path)
    decreases DocDepth(before) + DocDepth(after), 1
  {
    hide Restore;
    hide RestoreKey;
    hide DocDepth;
    restored := current;
    var keys := before.Keys + after.Keys;
    ghost var want := Restore(current, before, after, path);
    forall k | k !in keys ensures Get(current, k) == Get(want, k) {
      RestoreAt(current, before, after, path, k);
      UnlistedKey(current, before, after, path, k);
    }
    while keys != {}
      invariant keys <= before.Keys + after.Keys
      invariant forall k | k in keys :: Get(restored, k) == Get(current, k)
      invariant forall k | k !in keys :: Get(restored, k) == Get(want, k)
    {
      var key :| key in keys;
      var n := RestoreOneKey(restored, before, after, path, key);
      RestoreAt(current, before, after, path, key);
      RestoreKeyReads(restored, before, after, current, before, after, path, key);
      restored := Put(restored, key, n);
      keys := keys - {key};
    }
    DocsEqual(restored, want);
  }

  /** RestoreKey looks at one key of each document only. */
  lemma RestoreKeyReads(c1: Doc, b1: Doc, a1: Doc, c2: Doc, b2: Doc, a2: Doc, path: string, key: string)
    requires Get(c1, key) == Get(c2, key) && Get(b1, key) == Get(b2, key) && Get(a1, key) == Get(a2, key)
    ensures RestoreKey(c1, b1, a1, path, key) == RestoreKey(c2, b2, a2, path, key)
  {
  }

  lemma UnlistedKey(current: Doc, before: Doc, after: Doc, path: string, key: string)
    requires key !in before && key !in after
    ensures RestoreKey(current, before, after, path, key) == Get(current, key)
  {
  }

  /** One round of the loop: the value that key ends with, absent when it is deleted. */
  method RestoreOneKey(current: Doc, before: Doc, after: Doc, path: string, key: string) returns (n: Option<Node>)
    ensures n == RestoreKey(current, before, after, path, key)
    decreases DocDepth(before) + DocDepth(after), 0
  {
    hide Restore;
    hide DocDepth;
    var b, a, c := Get(before, key), Get(after, key), Get(current, key);
    if b == a {
      return c;
    }
    if key == NAMED_PROVIDERS && path == "" {
      n := RestoreNamedProviders(c, b, a);
      return;
    }
    if !AtomicPath(path) && TableOrAbsent(b) && TableOrAbsent(a) && TableOrAbsent(c) {
      if c.None? && a.Some? {
        return c;
      }
      SubDepth(before, key);
      SubDepth(after, key);
      var inner := RestoreClientConfig(Sub(c), Sub(b), Sub(a), Extend(path, key));
      return if inner != map[] || b.Some? then Some(Table(inner)) else None;
    }
    return if c == a then b else c;
  }

  /** The table case of RestoreKey. */
  lemma TableKey(current: Doc, before: Doc, after: Doc, path: string, key: string)
    requires Get(before, key) != Get(after, key) && !(key == NAMED_PROVIDERS && path == "") && !AtomicPath(path)
    requires TableOrAbsent(Get(current, key)) && TableOrAbsent(Get(before, key)) && TableOrAbsent(Get(after, key))
    requires Get(current, key).None? ==> Get(after, key).None?
    ensures var inner :=
              Restore(Sub(Get(current, key)), Sub(Get(before, key)), Sub(Get(after, key)), Extend(path, key));
            RestoreKey(current, before, after, path, key) ==
            (if inner != map[] || Get(before, key).Some? then Some(Table(inner)) else None)
  {
    hide Restore;
  }

  /** Every other case: nothing below the key is looked at. */
  lemma PlainKey(current: Doc, before: Doc, after: Doc, path: string, key: string)
    requires !(key == NAMED_PROVIDERS && path == "")
    requires AtomicPath(path) || !TableOrAbsent(Get(current, key)) || !TableOrAbsent(Get(before, key))
              || !TableOrAbsent(Get(after, key))
             || Get(before, key) == Get(after, key) || (Get(current, key).None? && Get(after, key).Some?)
    ensures var b, a, c := Get(before, key), Get(after, key), Get(current, key);
            RestoreKey(current, before, after, path, key) == (if b != a && c == a then b else c)
  {
    hide Restore;
  }

  // ---------- Undo: restoring what was installed gives back the original ----------

  /** The provider list, wherever the walk meets it, is one that RestoreNamed itself undoes. */
  ghost predicate NamedUndone(before: Doc, after: Doc, path: string)
    decreases DocDepth(before) + DocDepth(after)
  {
    path == "" ==>
      var b, a := Get(before, NAMED_PROVIDERS), Get(after, NAMED_PROVIDERS);
      && (b == a || RestoreNamed(a, b, a) == b)
      && (SubDepth(before, ""); SubDepth(after, "");
          (NestedAtRoot(before, after) ==> NamedUndone(Sub(Get(before, "")), Sub(Get(after, "")), "")))
  }

  /** An empty key at the root: the walk below it still has the empty path. */
  predicate NestedAtRoot(before: Doc, after: Doc) {
    TableOrAbsent(Get(before, "")) && TableOrAbsent(Get(after, "")) && Get(before, "") != Get(after, "")
  }

  /** Restoring the installed document yields exactly the original one, for every pair of documents,
      unless the named provider list is one that its own restore cannot undo. */
  lemma {:induction false} RestoreUndoesInstall(before: Doc, after: Doc, path: string)
    ensures Restore(after, before, after, path) == before <==> NamedUndone(before, after, path)
    decreases DocDepth(before) + DocDepth(after)
  {
    forall k | !(path == "" && (k == NAMED_PROVIDERS || k == ""))
      ensures RestoreKey(after, before, after, path, k) == Get(before, k)
    {
      UndoKey(before, after, path, k);
    }
    var restored := Restore(after, before, after, path);
    forall k ensures Get(restored, k) == RestoreKey(after, before, after, path, k) {
      RestoreAt(after, before, after, path, k);
    }
    if path == "" {
      UndoKey(before, after, path, "");
    }
    if NamedUndone(before, after, path) {
      DocsEqual(restored, before);
    } else {
      assert exists k :: Get(restored, k) != Get(before, k) by {
        assert Get(restored, NAMED_PROVIDERS) != Get(before, NAMED_PROVIDERS) || Get(restored, "") != Get(before, "");
      }
    }
  }

  lemma {:induction false} UndoKey(before: Doc, after: Doc, path: string, key: string)
    requires !(path == "" && key == NAMED_PROVIDERS)
    ensures RestoreKey(after, before, after, path, key) == Get(before, key)
      <==> (path == "" && key == "" && NestedAtRoot(before, after) ==>
          NamedUndone(Sub(Get(before, "")), Sub(Get(after, "")), ""))
    decreases DocDepth(before) + DocDepth(after), 0
  {
    hide Restore;
    hide RestoreKey;
    hide NamedUndone;
    hide DocDepth;
    var b, a := Get(before, key), Get(after, key);
    if b != a && TableOrAbsent(b) && TableOrAbsent(a) && !AtomicPath(path) {
      SubDepth(before, key);
      SubDepth(after, key);
      RestoreUndoesInstall(Sub(b), Sub(a), Extend(path, key));
      TableKey(after, before, after, path, key);
      if Extend(path, key) != "" {
        NamedUndoneBelow(Sub(b), Sub(a), Extend(path, key));
      }
    } else {
      PlainKey(after, before, after, path, key);
    }
  }

  lemma NamedUndoneBelow(before: Doc, after: Doc, path: string)
    requires path != ""
    ensures NamedUndone(before, after, path)
  {
  }

  // ---------- User edits ----------

  /** The path does not enter the named provider list, which is restored entry by entry. */
  predicate AvoidsNamed(path: string, p: Path)
  {
    path == "" ==> p[0] != NAMED_PROVIDERS && (|p| > 1 && p[0] == "" ==> AvoidsNamed("", p[1..]))
  }

  /** Every value the user changed, added or deleted since the install stays as the user left it. */
  lemma {:induction false} UserEditsSurvive(current: Doc, before: Doc, after: Doc, path: string, p: Path)
    requires AvoidsNamed(path, p)
    requires At(current, p) != At(after, p) && !IsTable(At(current, p))
    ensures At(Restore(current, before, after, path), p) == At(current, p)
    decreases |p|
  {
    hide Restore;
    hide DocDepth;
    var key := p[0];
    RestoreAt(current, before, after, path, key);
    if |p| > 1 {
      var b, a, c := Get(before, key), Get(after, key), Get(current, key);
      if At(Sub(c), p[1..]) != At(Sub(a), p[1..]) {
        UserEditsSurvive(Sub(c), Sub(b), Sub(a), Extend(path, key), p[1..]);
      }
    }
  }

  /** A path that neither snapshot mentions is never touched. */
  lemma {:induction false} UnmentionedUntouched(current: Doc, before: Doc, after: Doc, path: string, p: Path)
    requires AvoidsNamed(path, p)
    requires At(before, p).None? && At(after, p).None?
    ensures At(Restore(current, before, after, path), p) == At(current, p)
    decreases |p|
  {
    hide Restore;
    hide DocDepth;
    var key := p[0];
    RestoreAt(current, before, after, path, key);
    if |p| > 1 {
      var b, a, c := Get(before, key), Get(after, key), Get(current, key);
      assert At(map[], p[1..]).None?;
      UnmentionedUntouched(Sub(c), Sub(b), Sub(a), Extend(path, key), p[1..]);
    }
  }

  /** Inside providers, provider, model and env each entry of the restored document is entirely the current one or
      entirely the original one, however deep it is and whatever became of its table; and it is the current one if the
      user edited anything in it. */
  lemma AtomicBlockIndivisible(current: Doc, before: Doc, after: Doc, table: string, key: string)
    requires table in {"providers", "provider", "model", "env"}
    ensures var r := Get(Sub(Get(Restore(current, before, after, ""), table)), key);
            var c, b := Get(Sub(Get(current, table)), key), Get(Sub(Get(before, table)), key);
            && (r == c || r == b)
            && (c != Get(Sub(Get(after, table)), key) ==> r == c)
  {
    var c, b, a := Get(current, table), Get(before, table), Get(after, table);
    assert table[0] != NAMED_PROVIDERS[0] && Extend("", table) == table;
    RestoreAt(current, before, after, "", table);
    if b != a && TableOrAbsent(b) && TableOrAbsent(a) && TableOrAbsent(c) && (c.None? ==> a.None?) {
      TableKey(current, before, after, "", table);
      RestoreAt(Sub(c), Sub(b), Sub(a), table, key);
      PlainKey(Sub(c), Sub(b), Sub(a), table, key);
    } else {
      PlainKey(current, before, after, "", table);
    }
  }

  /** A field of any other table, at any depth, is merged by itself: an unedited one goes back to the original, or away,
      and an edited one stays, whatever was edited beside it. */
  lemma OtherFieldsMerge(current: Doc, before: Doc, after: Doc, p: Path)
    requires p[0] !in {"", "providers", "provider", "model", "env", "custom_providers"}
    requires forall n | 0 < n < |p| ::
              IsTable(At(current, p[..n])) && IsTable(At(before, p[..n])) && IsTable(At(after, p[..n]))
    requires !IsTable(At(current, p)) && !IsTable(At(before, p)) && !IsTable(At(after, p))
    ensures At(Restore(current, before, after, ""), p)
         == if At(current, p) == At(after, p) then At(before, p) else At(current, p)
  {
    FieldMerges(current, before, after, "", p);
  }

  lemma {:induction false} FieldMerges(current: Doc, before: Doc, after: Doc, path: string, p: Path)
    requires path !in {"providers", "provider", "model", "env"}
    requires path == "" ==> p[0] !in {"", "providers", "provider", "model", "env", "custom_providers"}
    requires forall n | 0 < n < |p| ::
              IsTable(At(current, p[..n])) && IsTable(At(before, p[..n])) && IsTable(At(after, p[..n]))
    requires !IsTable(At(current, p)) && !IsTable(At(before, p)) && !IsTable(At(after, p))
    ensures At(Restore(current, before, after, path), p)
         == if At(current, p) == At(after, p) then At(before, p) else At(current, p)
    decreases |p|
  {
    hide Restore;
    hide RestoreKey;
    hide DocDepth;
    var key := p[0];
    RestoreAt(current, before, after, path, key);
    if |p| == 1 {
      FieldKey(current, before, after, path, key);
    } else {
      assert p[..1] == [key] && At(current, p[..1]) == Get(current, key);
      assert At(before, p[..1]) == Get(before, key) && At(after, p[..1]) == Get(after, key);
      if Get(before, key) == Get(after, key) {
        PlainKey(current, before, after, path, key);
      } else {
        var c, b, a := Sub(Get(current, key)), Sub(Get(before, key)), Sub(Get(after, key));
        TableKey(current, before, after, path, key);
        DottedIsNotAtomic(path, key);
        forall n | 0 < n < |p[1..]|
          ensures IsTable(At(c, p[1..][..n])) && IsTable(At(b, p[1..][..n])) && IsTable(At(a, p[1..][..n]))
        {
          assert p[..n+1][1..] == p[1..][..n] && p[..n+1][0] == key;
          assert IsTable(At(current, p[..n+1]));
        }
        FieldMerges(c, b, a, Extend(path, key), p[1..]);
      }
    }
  }

  lemma FieldKey(current: Doc, before: Doc, after: Doc, path: string, key: string)
    requires !(path == "" && key == "custom_providers")
    requires !IsTable(Get(current, key)) && !IsTable(Get(before, key)) && !IsTable(Get(after, key))
    ensures RestoreKey(current, before, after, path, key)
         == if Get(current, key) == Get(after, key) then Get(before, key) else Get(current, key)
  {
    hide Restore;
    PlainKey(current, before, after, path, key);
  }

  lemma DottedIsNotAtomic(path: string, key: string)
    requires path == "" ==> key !in {"", "providers", "provider", "model", "env"}
    ensures Extend(path, key) !in {"", "providers", "provider", "model", "env"}
  {
    if path != "" {
      assert Extend(path, key)[|path|] == '.';
    }
  }

  /** The walk gets as far as p: outside the atomic tables, with a table or nothing on the way in all
      three documents, and no installed table on the way that the user deleted. */
  predicate Reached(current: Doc, before: Doc, after: Doc, path: string, p: Path)
    decreases |p|
  {
    |p| > 1 ==>
      var b, a, c := Get(before, p[0]), Get(after, p[0]), Get(current, p[0]);
      && !AtomicPath(path) && !(path == "" && p[0] == NAMED_PROVIDERS)
      && TableOrAbsent(b) && TableOrAbsent(a) && TableOrAbsent(c) && (c.None? ==> a.None?)
      && Reached(Sub(c), Sub(b), Sub(a), Extend(path, p[0]), p[1..])
  }

  /** The other half of the merge: a value still equal to the installed one goes back to the original,
      and is removed when there was none. */
  lemma {:induction false} UneditedGoesBack(current: Doc, before: Doc, after: Doc, path: string, p: Path)
    requires NamedUndone(before, after, path) || (path == "" ==> p[0] != "" && p[0] != NAMED_PROVIDERS)
    requires Reached(current, before, after, path, p)
    requires At(current, p) == At(after, p)
    ensures At(Restore(current, before, after, path), p) == At(before, p)
    decreases |p|
  {
    hide Restore;
    hide DocDepth;
    var key := p[0];
    RestoreAt(current, before, after, path, key);
    var b, a, c := Get(before, key), Get(after, key), Get(current, key);
    if |p| == 1 {
      if !(path == "" && key == NAMED_PROVIDERS) {
        UndoKey(before, after, path, key);
      }
      RestoreKeyReads(current, before, after, after, before, after, path, key);
    } else {
      UneditedGoesBack(Sub(c), Sub(b), Sub(a), Extend(path, key), p[1..]);
    }
  }

  // ---------- Restoring the original, and restoring twice ----------

  /** The provider list of the original is one that RestoreNamed leaves alone. */
  ghost predicate NamedInert(before: Doc, after: Doc, path: string)
    decreases DocDepth(before) + DocDepth(after)
  {
    path == "" ==>
      var b, a := Get(before, NAMED_PROVIDERS), Get(after, NAMED_PROVIDERS);
      && (b == a || RestoreNamed(b, b, a) == b)
      && (SubDepth(before, ""); SubDepth(after, "");
          (KeptAtRoot(before, after) ==> NamedInert(Sub(Get(before, "")), Sub(Get(after, "")), "")))
  }

  predicate KeptAtRoot(before: Doc, after: Doc) {
    NestedAtRoot(before, after) && Get(before, "").Some?
  }

  /** Restoring a document that already is the original changes nothing, again up to the named list. */
  lemma {:induction false} RestoringOriginalIsIdentity(before: Doc, after: Doc, path: string)
    ensures Restore(before, before, after, path) == before <==> NamedInert(before, after, path)
    decreases DocDepth(before) + DocDepth(after), 1
  {
    var restored := Restore(before, before, after, path);
    forall k
      ensures Get(restored, k) == RestoreKey(before, before, after, path, k)
      ensures !(path == "" && (k == NAMED_PROVIDERS || k == "")) ==> Get(restored, k) == Get(before, k)
    {
      RestoreAt(before, before, after, path, k);
      IdentityKey(before, after, path, k);
    }
    IdentityKey(before, after, path, "");
    if NamedInert(before, after, path) {
      DocsEqual(restored, before);
    } else {
      assert Get(restored, NAMED_PROVIDERS) != Get(before, NAMED_PROVIDERS) || Get(restored, "") != Get(before, "");
    }
  }

  lemma {:induction false} IdentityKey(before: Doc, after: Doc, path: string, key: string)
    ensures !(path == "" && key == NAMED_PROVIDERS) ==>
      (RestoreKey(before, before, after, path, key) == Get(before, key)
       <==> (path == "" && key == "" && KeptAtRoot(before, after) ==>
           NamedInert(Sub(Get(before, "")), Sub(Get(after, "")), "")))
    decreases DocDepth(before) + DocDepth(after), 0
  {
    hide Restore;
    hide RestoreKey;
    hide NamedInert;
    hide DocDepth;
    var b, a := Get(before, key), Get(after, key);
    if path == "" && key == NAMED_PROVIDERS {
    } else if b != a && TableOrAbsent(b) && TableOrAbsent(a) && !AtomicPath(path) && b.Some? {
      SubDepth(before, key);
      SubDepth(after, key);
      RestoringOriginalIsIdentity(Sub(b), Sub(a), Extend(path, key));
      TableKey(before, before, after, path, key);
      if Extend(path, key) != "" {
        NamedInertBelow(Sub(b), Sub(a), Extend(path, key));
      }
    } else {
      PlainKey(before, before, after, path, key);
    }
  }

  lemma NamedInertBelow(before: Doc, after: Doc, path: string)
    requires path != ""
    ensures NamedInert(before, after, path)
  {
  }

  /** No installed provider entry stands twice in the current list, wherever the walk meets it. */
  ghost predicate NamedOnce(current: Doc, before: Doc, after: Doc, path: string)
    decreases DocDepth(before) + DocDepth(after), 1
  {
    path == "" ==>
      var b, a, c := Get(before, NAMED_PROVIDERS), Get(after, NAMED_PROVIDERS), Get(current, NAMED_PROVIDERS);
      && (b != a ==> InstalledOnce(Items(c), Items(b), Items(a)))
      && (WalkedAtRoot(current, before, after) ==> NamedOnceBelow(current, before, after))
  }

  ghost predicate NamedOnceBelow(current: Doc, before: Doc, after: Doc)
    requires WalkedAtRoot(current, before, after)
    decreases DocDepth(before) + DocDepth(after), 0
  {
    SubDepth(before, "");
    SubDepth(after, "");
    NamedOnce(Sub(Get(current, "")), Sub(Get(before, "")), Sub(Get(after, "")), "")
  }

  predicate WalkedAtRoot(current: Doc, before: Doc, after: Doc) {
    NestedAtRoot(before, after) && TableOrAbsent(Get(current, "")) && (Get(current, "").None? ==> Get(after, "").None?)
  }

  /** Restoring twice is restoring once, exactly when no installed provider entry was there twice. */
  lemma {:induction false} RestoreIsIdempotent(current: Doc, before: Doc, after: Doc, path: string)
    ensures var once := Restore(current, before, after, path);
            Restore(once, before, after, path) == once <==> NamedOnce(current, before, after, path)
    decreases DocDepth(before) + DocDepth(after), 1
  {
    var once := Restore(current, before, after, path);
    var twice := Restore(once, before, after, path);
    forall k
      ensures Get(twice, k) == RestoreKey(once, before, after, path, k)
      ensures Get(once, k) == RestoreKey(current, before, after, path, k)
      ensures !(path == "" && (k == NAMED_PROVIDERS || k == "")) ==> Get(twice, k) == Get(once, k)
    {
      RestoreAt(current, before, after, path, k);
      RestoreAt(once, before, after, path, k);
      TwiceKey(current, once, before, after, path, k);
    }
    TwiceKey(current, once, before, after, path, "");
    if path == "" {
      RestoreNamedTwice(Get(current, NAMED_PROVIDERS), Get(before, NAMED_PROVIDERS), Get(after, NAMED_PROVIDERS));
    }
    if NamedOnce(current, before, after, path) {
      DocsEqual(twice, once);
    } else {
      assert Get(twice, NAMED_PROVIDERS) != Get(once, NAMED_PROVIDERS) || Get(twice, "") != Get(once, "");
    }
  }

  lemma {:induction false} TwiceKey(current: Doc, once: Doc, before: Doc, after: Doc, path: string, key: string)
    requires Get(once, key) == RestoreKey(current, before, after, path, key)
    ensures !(path == "" && key == NAMED_PROVIDERS) ==>
      (RestoreKey(once, before, after, path, key) == Get(once, key)
       <==> (path == "" && key == "" && WalkedAtRoot(current, before, after) ==>
           NamedOnceBelow(current, before, after)))
    decreases DocDepth(before) + DocDepth(after), 0
  {
    hide Restore;
    hide RestoreKey;
    hide NamedOnce;
    hide NamedOnceBelow;
    hide DocDepth;
    var b, a, c := Get(before, key), Get(after, key), Get(current, key);
    if path == "" && key == NAMED_PROVIDERS {
    } else if b != a && TableOrAbsent(b) && TableOrAbsent(a) && TableOrAbsent(c) && !AtomicPath(path)
        && (c.None? ==> a.None?) {
      SubDepth(before, key);
      SubDepth(after, key);
      RestoreIsIdempotent(Sub(c), Sub(b), Sub(a), Extend(path, key));
      TableKey(current, before, after, path, key);
      if Extend(path, key) != "" {
        NamedOnceBelowRoot(Sub(c), Sub(b), Sub(a), Extend(path, key));
      } else {
        NamedOnceAtRoot(current, before, after);
      }
      if Get(once, key).Some? {
        TableKey(once, before, after, path, key);
      } else {
        NothingFromNothing(Sub(a), Extend(path, key));
        PlainKey(once, before, after, path, key);
      }
    } else {
      PlainKey(current, before, after, path, key);
      PlainKey(once, before, after, path, key);
    }
  }

  lemma NamedOnceAtRoot(current: Doc, before: Doc, after: Doc)
    requires WalkedAtRoot(current, before, after)
    ensures NamedOnceBelow(current, before, after)
            <==> NamedOnce(Sub(Get(current, "")), Sub(Get(before, "")), Sub(Get(after, "")), "")
  {
  }

  lemma NamedOnceBelowRoot(current: Doc, before: Doc, after: Doc, path: string)
    requires path != ""
    ensures NamedOnce(current, before, after, path)
  {
  }

  lemma NothingFromNothing(after: Doc, path: string)
    ensures Restore(map[], map[], after, path) == map[]
  {
    forall k ensures RestoreKey(map[], map[], after, path, k).None? {
    }
  }

  // ---------- When a restore gives back the original ----------

  /** The walk goes into the table at a key instead of deciding it as a whole. */
  predicate Descends(current: Option<Node>, before: Option<Node>, after: Option<Node>, path: string, key: string) {
    && before != after && !AtomicPath(path) && !(path == "" && key == NAMED_PROVIDERS)
    && TableOrAbsent(before) && TableOrAbsent(after) && TableOrAbsent(current) && (current.None? ==> after.None?)
  }

  /** At every key the walk decides, current agrees with before or with after; where it descends, the same holds below;
      and the named list is one that RestoreNamed turns into the original. */
  ghost predicate Recovers(current: Doc, before: Doc, after: Doc, path: string)
    decreases DocDepth(before) + DocDepth(after), 1
  {
    forall k :: KeyRecovers(current, before, after, path, k)
  }

  ghost predicate KeyRecovers(current: Doc, before: Doc, after: Doc, path: string, key: string)
    decreases DocDepth(before) + DocDepth(after), 0
  {
    var b, a, c := Get(before, key), Get(after, key), Get(current, key);
    if Descends(c, b, a, path, key) then
      SubDepth(before, key); SubDepth(after, key);
      Recovers(Sub(c), Sub(b), Sub(a), Extend(path, key))
    else if path == "" && key == NAMED_PROVIDERS && b != a then RestoreNamed(c, b, a) == b
    else c == b || c == a
  }

  /** Restoring current gives exactly before, if and only if current agrees with one of the snapshots key by key. */
  lemma {:induction false} RestoreRecoversExactly(current: Doc, before: Doc, after: Doc, path: string)
    ensures Restore(current, before, after, path) == before <==> Recovers(current, before, after, path)
    decreases DocDepth(before) + DocDepth(after), 1
  {
    hide Restore;
    hide RestoreKey;
    hide KeyRecovers;
    hide DocDepth;
    var restored := Restore(current, before, after, path);
    forall k ensures Get(restored, k) == Get(before, k) <==> KeyRecovers(current, before, after, path, k) {
      RestoreAt(current, before, after, path, k);
      KeyRecoversExactly(current, before, after, path, k);
    }
    if Recovers(current, before, after, path) {
      DocsEqual(restored, before);
    }
  }

  lemma {:induction false} KeyRecoversExactly(current: Doc, before: Doc, after: Doc, path: string, key: string)
    ensures RestoreKey(current, before, after, path, key) == Get(before, key)
            <==> KeyRecovers(current, before, after, path, key)
    decreases DocDepth(before) + DocDepth(after), 0
  {
    hide Restore;
    hide Recovers;
    hide DocDepth;
    if Descends(Get(current, key), Get(before, key), Get(after, key), path, key) {
      SubDepth(before, key);
      SubDepth(after, key);
      RestoreRecoversExactly(Sub(Get(current, key)), Sub(Get(before, key)), Sub(Get(after, key)), Extend(path, key));
    }
  }

  lemma KeyRecoversReads(c1: Doc, b1: Doc, a1: Doc, c2: Doc, b2: Doc, a2: Doc, path: string, key: string)
    requires Get(c1, key) == Get(c2, key) && Get(b1, key) == Get(b2, key) && Get(a1, key) == Get(a2, key)
    ensures KeyRecovers(c1, b1, a1, path, key) <==> KeyRecovers(c2, b2, a2, path, key)
  {
  }

  // ---------- The installer's provider list ----------

  /** For the list an install writes, the conditions above come down to how often the name occurred: the original is
      always recognised, and undone exactly when the name stood in it at most once or nothing was rewritten. */
  lemma InstalledListLaws(before: Doc, after: Doc, entry: Node)
    requires NameOf(entry).Some? && Get(before, "") == Get(after, "")
    requires Get(before, NAMED_PROVIDERS).Some? ==> before[NAMED_PROVIDERS].List?
    requires Get(after, NAMED_PROVIDERS) == Some(List(InstallEntry(Items(Get(before, NAMED_PROVIDERS)), entry)))
    ensures NamedInert(before, after, "")
    ensures var items := Items(Get(before, NAMED_PROVIDERS));
            NamedUndone(before, after, "")
            <==> CountNamed(items, NameOf(entry).value) <= 1 || InstallEntry(items, entry) == items
  {
    var b, a := Get(before, NAMED_PROVIDERS), Get(after, NAMED_PROVIDERS);
    InstallEntryInert(Items(b), entry);
    InstallEntryUndone(Items(b), entry);
    hide InstallEntry;
    hide RestoreEntries;
    hide CountNamed;
    assert NamedUndone(before, after, "") <==> b == a || RestoreNamed(a, b, a) == b;
    assert NamedInert(before, after, "") <==> b == a || RestoreNamed(b, b, a) == b;
  }

  /** The entry an install appended under a new name comes out again, wherever it stands now; every other entry stays,
      one of the same name that the user edited included. */
  lemma InstalledProviderComesOut(current: Doc, before: Doc, after: Doc, items: seq<Node>, id: string, entry: Node,
      x: seq<Node>, y: seq<Node>)
    requires entry.Table? && Get(entry.entries, "name") == Some(Leaf(Text(id)))
    requires forall i | 0 <= i < |items| && items[i].Table? :: Get(items[i].entries, "name") != Some(Leaf(Text(id)))
    requires entry !in x && entry !in y
    requires Get(before, "custom_providers") == Some(List(items))
    requires Get(after, "custom_providers") == Some(List(items + [entry]))
    requires Get(current, "custom_providers") == Some(List(x + [entry] + y))
    ensures Get(Restore(current, before, after, ""), "custom_providers") == Some(List(x + y))
  {
    RestoreAt(current, before, after, "", "custom_providers");
    assert |items + [entry]| != |items|;
    var installed := items + [entry];
    forall item ensures Installed(item, items, installed) <==> item == entry {
      if NameOf(item).Some? {
        var name := NameOf(item).value;
        assert installed[..|installed|-1] == items;
        LastNamedFacts(items, name);
      }
    }
    LastNamedFacts(items, id);
    OneInstalled(x, entry, y, items, installed);
  }

  lemma {:induction false} OneInstalled(x: seq<Node>, entry: Node, y: seq<Node>, before: seq<Node>, after: seq<Node>)
    requires forall item :: Installed(item, before, after) <==> item == entry
    requires entry !in x && entry !in y && NameOf(entry).Some? && LastNamed(before, NameOf(entry).value).None?
    ensures RestoreEntries(x + [entry] + y, before, after, {}) == x + y
  {
    var all := x + [entry] + y;
    if x == [] {
      assert all[0] == entry && all[1..] == y;
      NothingToDo(y, before, after, {} + {NameOf(entry).value});
      assert Original(entry, before) + y == x + y;
    } else {
      assert all[0] == x[0] && all[1..] == x[1..] + [entry] + y;
      OneInstalled(x[1..], entry, y, before, after);
      assert [x[0]] + (x[1..] + y) == x + y;
    }
  }

  /** Restoring what was installed gives exactly the original, in documents without a list of named providers. */
  lemma UndoIsExact(before: Doc, after: Doc)
    requires "custom_providers" !in before && "custom_providers" !in after && "" !in before && "" !in after
    ensures Restore(after, before, after, "") == before
  {
    RestoreUndoesInstall(before, after, "");
  }
}
