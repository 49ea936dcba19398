/** visitConfigChanges: the minimal edits from one document to another, and their replay. */
module ConfigDiff {
  import opened Wrappers
  import opened ConfigTree

  /** One visited change: the new value, or absence for a deletion. */
  datatype Edit = Edit(path: Path, value: Option<Node>)

  function Below(key: string, e: Edit): Edit {
    Edit([key] + e.path, e.value)
  }

  function AllBelow(key: string, edits: seq<Edit>): (r: seq<Edit>)
    ensures |r| == |edits| && forall i | 0 <= i < |edits| :: r[i] == Below(key, edits[i])
  {
    seq(|edits|, i requires 0 <= i < |edits| => Below(key, edits[i]))
  }

  function ApplyEdit(doc: Doc, e: Edit): Option<Doc> {
    if e.value.Some? then SetAt(doc, e.path, e.value.value) else Some(DeleteAt(doc, e.path))
  }

  /** Replay in order; None when some edit would have to write below a value that is not a table. */
  function ApplyEdits(doc: Doc, edits: seq<Edit>): Option<Doc>
    decreases |edits|
  {
    if edits == [] then Some(doc)
    else
      var first := ApplyEdit(doc, edits[0]);
      if first.None? then None else ApplyEdits(first.value, edits[1..])
  }

  lemma {:induction false} ApplyConcat(doc: Doc, xs: seq<Edit>, ys: seq<Edit>)
    ensures ApplyEdits(doc, xs).Some? ==> ApplyEdits(doc, xs + ys) == ApplyEdits(ApplyEdits(doc, xs).value, ys)
    decreases |xs|
  {
    if xs == [] {
      assert xs + ys == ys;
    } else {
      assert (xs + ys)[1..] == xs[1..] + ys;
      var first := ApplyEdit(doc, xs[0]);
      if first.Some? {
        ApplyConcat(first.value, xs[1..], ys);
      }
    }
  }

  lemma {:induction false} ApplyBelow(doc: Doc, key: string, edits: seq<Edit>)
    requires IsTable(Get(doc, key)) && ApplyEdits(Sub(Get(doc, key)), edits).Some?
    ensures ApplyEdits(doc, AllBelow(key, edits))
              == Some(doc[key := Table(ApplyEdits(Sub(Get(doc, key)), edits).value)])
    decreases |edits|
  {
    var table := Sub(Get(doc, key));
    if edits == [] {
      assert doc[key := Table(table)] == doc;
    } else {
      var first := ApplyEdit(table, edits[0]).value;
      assert ([key] + edits[0].path)[1..] == edits[0].path;
      assert ApplyEdit(doc, Below(key, edits[0])) == Some(doc[key := Table(first)]);
      ApplyBelow(doc[key := Table(first)], key, edits[1..]);
      assert AllBelow(key, edits)[1..] == AllBelow(key, edits[1..]);
      var last := ApplyEdits(first, edits[1..]).value;
      assert doc[key := Table(first)][key := Table(last)] == doc[key := Table(last)];
    }
  }

  /** What the diff promises of each edit: the path really differs and carries the new value. */
  ghost predicate Genuine(before: Doc, after: Doc, edits: seq<Edit>) {
    forall e | e in edits :: At(before, e.path) != At(after, e.path) && e.value == At(after, e.path)
  }

  /** No visited path is at or below another one. */
  ghost predicate PrefixFree(edits: seq<Edit>) {
    forall i, j | 0 <= i < |edits| && 0 <= j < |edits| && i != j :: !(edits[i].path <= edits[j].path)
  }

  /** The key loop. The source visits the keys in sorted order; every order is covered here. */
  method VisitConfigChanges(before: Doc, after: Doc) returns (edits: seq<Edit>)
    ensures ApplyEdits(before, edits) == Some(after)
    ensures Genuine(before, after, edits) && PrefixFree(edits)
    decreases DocDepth(before), 1
  {
    edits := [];
    var keys := before.Keys + after.Keys;
    ghost var current := before;
    while keys != {}
      invariant keys <= before.Keys + after.Keys
      invariant ApplyEdits(before, edits) == Some(current)
      invariant forall k | k in keys :: Get(current, k) == Get(before, k)
      invariant forall k | k !in keys :: Get(current, k) == Get(after, k)
      invariant forall e | e in edits :: e.path[0] !in keys
      invariant Genuine(before, after, edits) && PrefixFree(edits)
    {
      var key :| key in keys;
      keys := keys - {key};
      var visited := VisitKey(before, after, key, current);
      ApplyConcat(before, edits, visited);
      JoinVisited(before, after, edits, visited, key);
      edits := edits + visited;
      current := Put(current, key, Get(after, key));
    }
    DocsEqual(current, after);
  }

  /** One round of the loop; current is the document the edits so far have reached. */
  method VisitKey(before: Doc, after: Doc, key: string, ghost current: Doc) returns (visited: seq<Edit>)
    requires Get(current, key) == Get(before, key)
    ensures ApplyEdits(current, visited) == Some(Put(current, key, Get(after, key)))
    ensures Genuine(before, after, visited) && PrefixFree(visited)
    ensures forall e | e in visited :: e.path[0] == key
    decreases DocDepth(before), 0
  {
    var b, a := Get(before, key), Get(after, key);
    if b == a {
      DocsEqual(current, Put(current, key, a));
      visited := [];
    } else if IsTable(b) && IsTable(a) {
      SubDepth(before, key);
      var inner := VisitConfigChanges(Sub(b), Sub(a));
      visited := AllBelow(key, inner);
      ApplyBelow(current, key, inner);
      EditsBelow(before, after, key, inner);
    } else {
      visited := [Edit([key], a)];
      assert ApplyEdits(current, visited) == ApplyEdit(current, visited[0]);
    }
  }

  lemma EditsBelow(before: Doc, after: Doc, key: string, inner: seq<Edit>)
    requires IsTable(Get(before, key)) && IsTable(Get(after, key))
    requires Genuine(Sub(Get(before, key)), Sub(Get(after, key)), inner) && PrefixFree(inner)
    ensures Genuine(before, after, AllBelow(key, inner)) && PrefixFree(AllBelow(key, inner))
  {
    var edits := AllBelow(key, inner);
    forall i | 0 <= i < |edits|
      ensures At(before, edits[i].path) == At(Sub(Get(before, key)), inner[i].path)
      ensures At(after, edits[i].path) == At(Sub(Get(after, key)), inner[i].path)
      ensures edits[i].path[1..] == inner[i].path
    {
      assert edits[i].path[1..] == inner[i].path;
    }
    forall i | 0 <= i < |edits| ensures At(before, edits[i].path) != At(after, edits[i].path)
        && edits[i].value == At(after, edits[i].path) {
      assert inner[i] in inner;
    }
    forall i, j | 0 <= i < |edits| && 0 <= j < |edits| && i != j ensures !(edits[i].path <= edits[j].path) {
    }
  }

  /** Edits of a fresh top-level key join the edits of the others. */
  lemma JoinVisited(before: Doc, after: Doc, edits: seq<Edit>, visited: seq<Edit>, key: string)
    requires forall e | e in edits :: e.path[0] != key
    requires forall e | e in visited :: e.path[0] == key
    requires Genuine(before, after, edits) && PrefixFree(edits)
    requires Genuine(before, after, visited) && PrefixFree(visited)
    ensures Genuine(before, after, edits + visited) && PrefixFree(edits + visited)
  {
    var all := edits + visited;
    forall i, j | 0 <= i < |all| && 0 <= j < |all| && i != j ensures !(all[i].path <= all[j].path) {
      assert i < |edits| ==> all[i] in edits;
      assert j < |edits| ==> all[j] in edits;
      assert i >= |edits| ==> all[i] == visited[i-|edits|] && all[i] in visited;
      assert j >= |edits| ==> all[j] == visited[j-|edits|] && all[j] in visited;
    }
  }
}
