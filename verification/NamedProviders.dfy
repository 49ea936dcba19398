/** The name-indexed restore of the top-level custom_providers list, and the installer's edit it reverses. */
module NamedProviders {
  import opened Wrappers
  import opened ConfigTree

  function NameOf(item: Node): Option<string> {
    if item.Table? && Get(item.entries, "name").Some? && item.entries["name"].Leaf? && item.entries["name"].scalar.Text?
    then Some(item.entries["name"].scalar.text) else None
  }

  function Items(n: Option<Node>): seq<Node> {
    if n.Some? && n.value.List? then n.value.items else []
  }

  /** The entry the index holds under name: a later entry overwrites an earlier one. */
  function LastNamed(items: seq<Node>, name: string): Option<Node> {
    if items == [] then None
    else if NameOf(items[|items|-1]) == Some(name) then Some(items[|items|-1])
    else LastNamed(items[..|items|-1], name)
  }

  /** The entry is exactly what rai installed under its name, and the install changed that name. */
  predicate Installed(item: Node, before: seq<Node>, after: seq<Node>) {
    var name := NameOf(item);
    name.Some? && LastNamed(after, name.value) == Some(item) && LastNamed(before, name.value) != Some(item)
  }

  function Original(item: Node, before: seq<Node>): seq<Node>
    requires NameOf(item).Some?
  {
    var original := LastNamed(before, NameOf(item).value);
    if original.Some? then [original.value] else []
  }

  /** One pass over the entries: the first installed entry of each name goes back to its original, or
      away when there was none. The names in done are already handled. */
  function RestoreEntries(entries: seq<Node>, before: seq<Node>, after: seq<Node>, done: set<string>): seq<Node> {
    if entries == [] then []
    else if Installed(entries[0], before, after) && NameOf(entries[0]).value !in done then
      Original(entries[0], before) + RestoreEntries(entries[1..], before, after, done + {NameOf(entries[0]).value})
    else [entries[0]] + RestoreEntries(entries[1..], before, after, done)
  }

  function RestoreNamed(c: Option<Node>, b: Option<Node>, a: Option<Node>): Option<Node> {
    if c.Some? && !c.value.List? then c
    else
      var entries := RestoreEntries(Items(c), Items(b), Items(a), {});
      if entries == [] && (b.None? || b == Some(Leaf(Null))) then None else Some(List(entries))
  }

  /** The installer's edit: replace the first entry called like the new one, or append it. */
  function InstallEntry(items: seq<Node>, entry: Node): seq<Node> {
    if items == [] then [entry]
    else if NameOf(items[0]) == NameOf(entry) then [entry] + items[1..]
    else [items[0]] + InstallEntry(items[1..], entry)
  }

  function CountNamed(items: seq<Node>, name: string): nat {
    if items == [] then 0
    else (if NameOf(items[0]) == Some(name) then 1 else 0) + CountNamed(items[1..], name)
  }

  // ---------- The loops of the restore ----------

  /** The name index of a list, built front to back. */
  method Index(items: seq<Node>) returns (index: map<string, Node>)
    ensures forall name :: Get(index, name) == LastNamed(items, name)
  {
    index := map[];
    for i := 0 to |items|
      invariant forall name :: Get(index, name) == LastNamed(items[..i], name)
    {
      var name := NameOf(items[i]);
      if name.Some? {
        index := index[name.value := items[i]];
      }
      assert items[..i+1][..i] == items[..i] && items[..i+1][i] == items[i];
    }
    assert items[..|items|] == items;
  }

  function ReplaceFirst(entries: seq<Node>, item: Node, put: seq<Node>): seq<Node> {
    if entries == [] then []
    else if entries[0] == item then put + entries[1..]
    else [entries[0]] + ReplaceFirst(entries[1..], item, put)
  }

  lemma {:induction false} ReplaceFirstAt(entries: seq<Node>, i: nat, item: Node, put: seq<Node>)
    requires i <= |entries| && item !in entries[..i]
    ensures i == |entries| ==> ReplaceFirst(entries, item, put) == entries
    ensures i < |entries| && entries[i] == item ==>
              ReplaceFirst(entries, item, put) == entries[..i] + put + entries[i+1..]
  {
    if i > 0 {
      assert entries[0] in entries[..i] && entries[1..][..i-1] == entries[..i][1..];
      ReplaceFirstAt(entries[1..], i - 1, item, put);
      if i < |entries| && entries[i] == item {
        assert entries[1..][i..] == entries[i+1..];
        assert entries[..i] == [entries[0]] + entries[1..][..i-1];
        assert [entries[0]] + (entries[1..][..i-1] + put + entries[i+1..]) == entries[..i] + put + entries[i+1..];
      }
    } else if entries != [] {
      assert [] + put + entries[1..] == put + entries[1..];
    }
  }

  /** Handling one more name is replacing the first entry equal to what was installed under it. */
  lemma {:induction false} HandleName(entries: seq<Node>, before: seq<Node>, after: seq<Node>, todo: set<string>,
        item: Node)
    requires Installed(item, before, after) && NameOf(item).value in todo
    ensures RestoreEntries(entries, before, after, todo - {NameOf(item).value})
         == ReplaceFirst(RestoreEntries(entries, before, after, todo), item, Original(item, before))
  {
    var name := NameOf(item).value;
    if entries != [] {
      var head := entries[0];
      LastNamedFacts(after, name);
      if head == item {
        assert todo - {name} + {name} == todo;
      } else if Installed(head, before, after) && NameOf(head).value !in todo {
        var todo' := todo + {NameOf(head).value};
        assert todo' - {name} == todo - {name} + {NameOf(head).value};
        HandleName(entries[1..], before, after, todo', item);
        LastNamedFacts(before, NameOf(head).value);
        var rest := RestoreEntries(entries[1..], before, after, todo');
        if Original(head, before) == [] {
          assert [] + rest == rest;
          assert [] + ReplaceFirst(rest, item, Original(item, before))
              == ReplaceFirst(rest, item, Original(item, before));
        } else {
          assert (Original(head, before) + rest)[1..] == rest;
        }
      } else {
        HandleName(entries[1..], before, after, todo, item);
      }
    }
  }

  lemma {:induction false} NothingToDo(entries: seq<Node>, before: seq<Node>, after: seq<Node>, done: set<string>)
    requires forall item | item in entries && Installed(item, before, after) :: NameOf(item).value in done
    ensures RestoreEntries(entries, before, after, done) == entries
  {
    if entries != [] {
      NothingToDo(entries[1..], before, after, done);
    }
  }

  /** The inner search: the first entry equal to the installed one gives way to the original, if any. */
  method ReplaceInstalled(entries: seq<Node>, installed: Node, original: Option<Node>) returns (r: seq<Node>)
    ensures r == ReplaceFirst(entries, installed, if original.Some? then [original.value] else [])
  {
    var i := 0;
    while i < |entries| && entries[i] != installed
      invariant i <= |entries| && installed !in entries[..i]
    {
      i := i + 1;
    }
    ReplaceFirstAt(entries, i, installed, if original.Some? then [original.value] else []);
    if i == |entries| {
      r := entries;
    } else if original.Some? {
      r := entries[..i] + [original.value] + entries[i+1..];
    } else {
      assert entries[..i] + [] + entries[i+1..] == entries[..i] + entries[i+1..];
      r := entries[..i] + entries[i+1..];
    }
  }

  /** The loop over the installed names, which come in any order. */
  method RestoreNamedProviders(c: Option<Node>, b: Option<Node>, a: Option<Node>) returns (restored: Option<Node>)
    ensures restored == RestoreNamed(c, b, a)
  {
    if c.Some? && !c.value.List? {
      return c;
    }
    var entries, before, after := Items(c), Items(b), Items(a);
    ghost var original := entries;
    var bm := Index(before);
    var am := Index(after);
    var names := am.Keys;
    forall item | item in entries && Installed(item, before, after) ensures NameOf(item).value in names {
      assert Get(am, NameOf(item).value) == LastNamed(after, NameOf(item).value);
    }
    NothingToDo(entries, before, after, names);
    while names != {}
      invariant names <= am.Keys
      invariant entries == RestoreEntries(original, before, after, names)
    {
      var name :| name in names;
      var installed := am[name];
      assert Get(am, name) == LastNamed(after, name) && Get(bm, name) == LastNamed(before, name);
      LastNamedFacts(after, name);
      if name in bm && bm[name] == installed {
        NotInstalledName(original, before, after, names, name);
      } else {
        HandleName(original, before, after, names, installed);
        entries := ReplaceInstalled(entries, installed, Get(bm, name));
      }
      names := names - {name};
    }
    restored := if entries == [] && (b.None? || b == Some(Leaf(Null))) then None else Some(List(entries));
  }

  lemma {:induction false} NotInstalledName(entries: seq<Node>, before: seq<Node>, after: seq<Node>, todo: set<string>,
        name: string)
    requires LastNamed(after, name) == LastNamed(before, name) && name in todo
    ensures RestoreEntries(entries, before, after, todo - {name}) == RestoreEntries(entries, before, after, todo)
  {
    if entries != [] {
      if Installed(entries[0], before, after) && NameOf(entries[0]).value !in todo {
        var todo' := todo + {NameOf(entries[0]).value};
        assert todo' - {name} == todo - {name} + {NameOf(entries[0]).value};
        NotInstalledName(entries[1..], before, after, todo', name);
      } else {
        NotInstalledName(entries[1..], before, after, todo, name);
      }
    }
  }

  // ---------- The restore leaves every entry rai did not install, in order ----------

  ghost predicate NoneInstalled(entries: seq<Node>, before: seq<Node>, after: seq<Node>) {
    forall item | item in entries :: !Installed(item, before, after)
  }

  lemma {:induction false} NothingInstalledNothingChanges(entries: seq<Node>, before: seq<Node>, after: seq<Node>,
        done: set<string>)
    requires NoneInstalled(entries, before, after)
    ensures RestoreEntries(entries, before, after, done) == entries
  {
    if entries != [] {
      NothingInstalledNothingChanges(entries[1..], before, after, done);
    }
  }

  /** The entries that come neither from rai nor from the original list, in order. */
  function UserEntries(entries: seq<Node>, before: seq<Node>, after: seq<Node>): seq<Node> {
    if entries == [] then []
    else if Installed(entries[0], before, after) || entries[0] in before then UserEntries(entries[1..], before, after)
    else [entries[0]] + UserEntries(entries[1..], before, after)
  }

  lemma {:induction false} LastNamedFacts(items: seq<Node>, name: string)
    ensures var r := LastNamed(items, name);
            r.Some? ==> r.value in items && NameOf(r.value) == Some(name)
  {
    if items != [] && NameOf(items[|items|-1]) != Some(name) {
      LastNamedFacts(items[..|items|-1], name);
    }
  }

  lemma {:induction false} UserEntriesConcat(x: seq<Node>, y: seq<Node>, before: seq<Node>, after: seq<Node>)
    ensures UserEntries(x + y, before, after) == UserEntries(x, before, after) + UserEntries(y, before, after)
  {
    if x == [] {
      assert x + y == y;
    } else {
      assert (x + y)[1..] == x[1..] + y;
      UserEntriesConcat(x[1..], y, before, after);
    }
  }

  lemma {:induction false} UserEntriesSurvive(entries: seq<Node>, before: seq<Node>, after: seq<Node>,
        done: set<string>)
    ensures UserEntries(RestoreEntries(entries, before, after, done), before, after)
              == UserEntries(entries, before, after)
  {
    if entries != [] {
      var item := entries[0];
      if Installed(item, before, after) && NameOf(item).value !in done {
        var rest := RestoreEntries(entries[1..], before, after, done + {NameOf(item).value});
        UserEntriesSurvive(entries[1..], before, after, done + {NameOf(item).value});
        LastNamedFacts(before, NameOf(item).value);
        UserEntriesConcat(Original(item, before), rest, before, after);
        assert UserEntries(Original(item, before), before, after) == [];
      } else {
        UserEntriesSurvive(entries[1..], before, after, done);
        UserEntriesConcat([item], RestoreEntries(entries[1..], before, after, done), before, after);
        assert UserEntries([item], before, after) + UserEntries(entries[1..], before, after)
            == UserEntries(entries, before, after);
      }
    }
  }

  // ---------- Restoring the list twice ----------

  /** No installed entry stands twice in the list. */
  ghost predicate InstalledOnce(entries: seq<Node>, before: seq<Node>, after: seq<Node>) {
    forall i, j | 0 <= i < j < |entries| && entries[i] == entries[j] :: !Installed(entries[i], before, after)
  }

  lemma {:induction false} RestoreLeavesDuplicates(entries: seq<Node>, before: seq<Node>, after: seq<Node>,
        done: set<string>)
    ensures NoneInstalled(RestoreEntries(entries, before, after, done), before, after) <==>
            InstalledOnce(entries, before, after)
            && forall item | item in entries && Installed(item, before, after) :: NameOf(item).value !in done
  {
    if entries != [] {
      var item, rest := entries[0], entries[1..];
      var result := RestoreEntries(entries, before, after, done);
      assert entries == [item] + rest;
      if Installed(item, before, after) && NameOf(item).value !in done {
        var done' := done + {NameOf(item).value};
        RestoreLeavesDuplicates(rest, before, after, done');
        LastNamedFacts(before, NameOf(item).value);
        assert forall x | x in Original(item, before) :: !Installed(x, before, after);
        assert NoneInstalled(result, before, after)
            <==> NoneInstalled(RestoreEntries(rest, before, after, done'), before, after);
        forall x | x in rest && Installed(x, before, after)
          ensures NameOf(x).value in done' <==> NameOf(x).value in done || x == item
        {
        }
        if InstalledOnce(entries, before, after) {
          assert InstalledOnce(rest, before, after);
          assert item !in rest;
        } else if InstalledOnce(rest, before, after) {
          assert item in rest;
        }
      } else {
        RestoreLeavesDuplicates(rest, before, after, done);
        if Installed(item, before, after) {
          assert item in result && item in entries;
        }
      }
    }
  }

  lemma {:induction false} InstalledEntryChanges(entries: seq<Node>, before: seq<Node>, after: seq<Node>)
    requires !NoneInstalled(entries, before, after)
    ensures RestoreEntries(entries, before, after, {}) != entries
  {
    var item, rest := entries[0], entries[1..];
    if Installed(item, before, after) {
      LastNamedFacts(before, NameOf(item).value);
      RestoreNeverGrows(rest, before, after, {NameOf(item).value});
      assert {} + {NameOf(item).value} == {NameOf(item).value};
      if LastNamed(before, NameOf(item).value).Some? {
        assert RestoreEntries(entries, before, after, {})[0] != item;
      } else {
        assert |RestoreEntries(entries, before, after, {})| < |entries|;
      }
    } else {
      InstalledEntryChanges(rest, before, after);
    }
  }

  lemma {:induction false} RestoreNeverGrows(entries: seq<Node>, before: seq<Node>, after: seq<Node>, done: set<string>)
    ensures |RestoreEntries(entries, before, after, done)| <= |entries|
  {
    if entries != [] {
      if Installed(entries[0], before, after) && NameOf(entries[0]).value !in done {
        RestoreNeverGrows(entries[1..], before, after, done + {NameOf(entries[0]).value});
      } else {
        RestoreNeverGrows(entries[1..], before, after, done);
      }
    }
  }

  /** A second restore of the list changes nothing exactly when no installed entry stood in it twice. */
  lemma RestoreNamedTwice(c: Option<Node>, b: Option<Node>, a: Option<Node>)
    ensures var once := RestoreNamed(c, b, a);
            RestoreNamed(once, b, a) == once <==> InstalledOnce(Items(c), Items(b), Items(a))
  {
    var entries := RestoreEntries(Items(c), Items(b), Items(a), {});
    RestoreLeavesDuplicates(Items(c), Items(b), Items(a), {});
    if NoneInstalled(entries, Items(b), Items(a)) {
      NothingInstalledNothingChanges(entries, Items(b), Items(a), {});
    } else {
      InstalledEntryChanges(entries, Items(b), Items(a));
    }
  }

  // ---------- The installer's edit, undone ----------

  lemma {:induction false} LastNamedTail(items: seq<Node>, name: string)
    requires items != []
    ensures LastNamed(items, name) ==
            if LastNamed(items[1..], name).Some? then LastNamed(items[1..], name)
            else if NameOf(items[0]) == Some(name) then Some(items[0]) else None
  {
    if |items| > 1 {
      assert items[1..][|items[1..]|-1] == items[|items|-1];
      if NameOf(items[|items|-1]) != Some(name) {
        LastNamedTail(items[..|items|-1], name);
        assert items[..|items|-1][1..] == items[1..][..|items[1..]|-1];
      }
    } else {
      assert items[..0] == [] && items[1..] == [];
    }
  }

  lemma {:induction false} CountAndLast(items: seq<Node>, name: string)
    ensures CountNamed(items, name) == 0 <==> LastNamed(items, name).None?
    ensures CountNamed(items, name) == 0 ==> forall item | item in items :: NameOf(item) != Some(name)
  {
    if items != [] {
      LastNamedTail(items, name);
      CountAndLast(items[1..], name);
    }
  }

  lemma {:induction false} InstallIndex(items: seq<Node>, entry: Node, name: string)
    requires NameOf(entry).Some?
    ensures LastNamed(InstallEntry(items, entry), name) ==
            if NameOf(entry) == Some(name) && CountNamed(items, name) <= 1 then Some(entry) else LastNamed(items, name)
  {
    var installed := InstallEntry(items, entry);
    LastNamedTail(installed, name);
    if items == [] {
      assert installed[1..] == [];
    } else {
      LastNamedTail(items, name);
      CountAndLast(items[1..], name);
      if NameOf(items[0]) == NameOf(entry) {
        assert installed[1..] == items[1..];
      } else {
        assert installed[1..] == InstallEntry(items[1..], entry);
        InstallIndex(items[1..], entry, name);
      }
    }
  }

  /** Restoring the list a Hermes install wrote gives back the original list exactly when the installed name
      stood in it at most once, or the install rewrote its first occurrence to what it already was. */
  lemma {:induction false} InstallEntryUndone(items: seq<Node>, entry: Node)
    requires NameOf(entry).Some?
    ensures var installed := InstallEntry(items, entry);
            RestoreEntries(installed, items, installed, {}) == items
            <==> CountNamed(items, NameOf(entry).value) <= 1 || installed == items
  {
    var id := NameOf(entry).value;
    var installed := InstallEntry(items, entry);
    forall item | NameOf(item).Some?
      ensures Installed(item, items, installed) <==>
              item == entry && CountNamed(items, id) <= 1 && LastNamed(items, id) != Some(entry)
    {
      InstallIndex(items, entry, NameOf(item).value);
      LastNamedFacts(items, NameOf(item).value);
    }
    if CountNamed(items, id) <= 1 && LastNamed(items, id) != Some(entry) {
      OneEntryGoesBack(items, entry, items, installed);
    } else {
      NothingInstalledNothingChanges(installed, items, installed, {});
      if CountNamed(items, id) <= 1 {
        SameEntryReinstalled(items, entry);
      }
    }
  }

  lemma {:induction false} SameEntryReinstalled(items: seq<Node>, entry: Node)
    requires NameOf(entry).Some? && CountNamed(items, NameOf(entry).value) <= 1
    requires LastNamed(items, NameOf(entry).value) == Some(entry)
    ensures InstallEntry(items, entry) == items
  {
    LastNamedTail(items, NameOf(entry).value);
    CountAndLast(items[1..], NameOf(entry).value);
    if NameOf(items[0]) != NameOf(entry) {
      SameEntryReinstalled(items[1..], entry);
    }
  }

  lemma {:induction false} OneEntryGoesBack(items: seq<Node>, entry: Node, before: seq<Node>, after: seq<Node>)
    requires NameOf(entry).Some? && CountNamed(items, NameOf(entry).value) <= 1
    requires forall item :: Installed(item, before, after) <==> item == entry
    requires LastNamed(items, NameOf(entry).value) == LastNamed(before, NameOf(entry).value)
    ensures RestoreEntries(InstallEntry(items, entry), before, after, {}) == items
  {
    var id := NameOf(entry).value;
    var installed := InstallEntry(items, entry);
    CountAndLast(items, id);
    if items == [] {
      assert installed[1..] == [];
    } else {
      LastNamedTail(items, id);
      CountAndLast(items[1..], id);
      if NameOf(items[0]) == Some(id) {
        assert installed[1..] == items[1..];
        assert forall item | item in items[1..] :: item != entry;
        assert {} + {id} == {id} && Original(entry, before) == [items[0]];
        NothingInstalledNothingChanges(items[1..], before, after, {id});
      } else {
        assert installed[1..] == InstallEntry(items[1..], entry);
        OneEntryGoesBack(items[1..], entry, before, after);
      }
    }
  }

  /** Restoring the list when the install never reached the file changes nothing. */
  lemma InstallEntryInert(items: seq<Node>, entry: Node)
    requires NameOf(entry).Some?
    ensures RestoreEntries(items, items, InstallEntry(items, entry), {}) == items
  {
    var id := NameOf(entry).value;
    forall item | item in items ensures !Installed(item, items, InstallEntry(items, entry)) {
      if NameOf(item).Some? {
        InstallIndex(items, entry, NameOf(item).value);
        if NameOf(item).value == id && CountNamed(items, id) <= 1 && item == entry {
          OnlyOneNamed(items, item, id);
        }
      }
    }
    NothingInstalledNothingChanges(items, items, InstallEntry(items, entry), {});
  }

  lemma {:induction false} OnlyOneNamed(items: seq<Node>, item: Node, name: string)
    requires item in items && NameOf(item) == Some(name) && CountNamed(items, name) <= 1
    ensures LastNamed(items, name) == Some(item)
  {
    LastNamedTail(items, name);
    CountAndLast(items[1..], name);
    if NameOf(items[0]) != Some(name) {
      OnlyOneNamed(items[1..], item, name);
    }
  }
}
