/** A client configuration document: the tree that the TOML, YAML and JSON codecs decode to,
    and the path operations every installer and restorer is built from. */
module ConfigTree {
  import opened Wrappers

  datatype Scalar = Null | Bool(flag: bool) | Number(n: int) | Text(text: string)

  /** One decoded value: a scalar, a list, or a nested table. */
  datatype Node = Leaf(scalar: Scalar) | List(items: seq<Node>) | Table(entries: Doc)

  type Doc = map<string, Node>

  /** A non-empty key path. */
  type Path = p: seq<string> | p != [] witness [""]

  /** The dotted name of a key below a table. */
  function Extend(path: string, key: string): string {
    if path != "" then path + "." + key else key
  }

  function Get(doc: Doc, key: string): Option<Node> {
    if key in doc then Some(doc[key]) else None
  }

  predicate IsTable(n: Option<Node>) {
    n.Some? && n.value.Table?
  }

  predicate TableOrAbsent(n: Option<Node>) {
    n.None? || n.value.Table?
  }

  /** The table held by n, or the empty table when n is absent or not a table. */
  function Sub(n: Option<Node>): Doc {
    if IsTable(n) then n.value.entries else map[]
  }

  /** The document with key bound to n, or without key when n is absent. */
  function Put(doc: Doc, key: string, n: Option<Node>): Doc {
    if n.Some? then doc[key := n.value] else doc - {key}
  }

  lemma DocsEqual(d: Doc, e: Doc)
    requires forall k :: Get(d, k) == Get(e, k)
    ensures d == e
  {
    forall k
      ensures k in d <==> k in e
      ensures k in d ==> d[k] == e[k]
    {
      assert Get(d, k) == Get(e, k);
    }
  }

  // ---------- Nesting depth: the measure every tree recursion decreases ----------

  ghost function MaxOf(s: set<nat>): (m: nat)
    ensures forall x :: x in s ==> x <= m
    ensures m == 0 || m in s
  {
    if s == {} then 0 else
      var x :| x in s;
      var rest := MaxOf(s - {x});
      assert forall y :: y in s ==> y == x || y in s - {x};
      if x > rest then x else rest
  }

  ghost function Depth(n: Node): (d: nat)
    ensures 1 <= d
    ensures n.Table? ==> forall k :: k in n.entries ==> Depth(n.entries[k]) < d
    ensures n.Table? ==> d == 1 || exists k :: k in n.entries && d == 1 + Depth(n.entries[k])
  {
    match n
    case Leaf(_) => 1
    case List(_) => 1
    case Table(m) =>
      var depths := set k | k in m :: Depth(m[k]);
      assert forall k :: k in m ==> Depth(m[k]) in depths;
      1 + MaxOf(depths)
  }

  ghost function DocDepth(doc: Doc): (d: nat) {
    Depth(Table(doc))
  }

  lemma SubDepth(doc: Doc, key: string)
    ensures DocDepth(Sub(Get(doc, key))) <= DocDepth(doc)
    ensures key in doc ==> DocDepth(Sub(Get(doc, key))) < DocDepth(doc)
  {
    var empty := Table(map[]);
    assert (set k | k in empty.entries :: Depth(empty.entries[k])) == {};
    assert Depth(empty) == 1;
    if key in doc {
      assert Depth(Table(doc).entries[key]) < Depth(Table(doc));
    }
  }

  /** A document whose entries are no deeper than another's is itself no deeper. */
  lemma DepthBound(d: Doc, e: Doc)
    requires forall k :: k in d ==> k in e && Depth(d[k]) <= Depth(e[k])
    ensures DocDepth(d) <= DocDepth(e)
  {
    if DocDepth(d) != 1 {
      var k :| k in d && DocDepth(d) == 1 + Depth(d[k]);
      assert Depth(Table(e).entries[k]) < Depth(Table(e));
    }
  }

  // ---------- Reading, writing and deleting by path ----------

  /** The value at a non-empty path: present only when every proper prefix is a table. */
  function At(doc: Doc, path: Path): Option<Node>
    decreases |path|
  {
    if |path| == 1 then Get(doc, path[0])
    else if IsTable(Get(doc, path[0])) then At(doc[path[0]].entries, path[1..])
    else None
  }

  /** Set the value at a path, creating the missing tables on the way; None when a proper prefix
      holds something other than a table, and then nothing is written. */
  function SetAt(doc: Doc, path: Path, value: Node): Option<Doc>
    decreases |path|
  {
    if |path| == 1 then Some(doc[path[0] := value])
    else if !TableOrAbsent(Get(doc, path[0])) then None
    else
      var inner := SetAt(Sub(Get(doc, path[0])), path[1..], value);
      if inner.None? then None else Some(doc[path[0] := Table(inner.value)])
  }

  /** Delete the value at a path, if the path leads anywhere. */
  function DeleteAt(doc: Doc, path: Path): Doc
    decreases |path|
  {
    if |path| == 1 then doc - {path[0]}
    else if !IsTable(Get(doc, path[0])) then doc
    else doc[path[0] := Table(DeleteAt(doc[path[0]].entries, path[1..]))]
  }

  /** The walk down the tables on the way. */
  method ConfigValue(doc: Doc, path: Path) returns (value: Option<Node>)
    ensures value == At(doc, path)
  {
    var here := doc;
    for i := 0 to |path| - 1
      invariant At(doc, path) == At(here, path[i..])
    {
      var next := Get(here, path[i]);
      if !IsTable(next) {
        return None;
      }
      here := next.value.entries;
      assert path[i..][1..] == path[i+1..];
    }
    value := Get(here, path[|path|-1]);
  }

  /** A set succeeds exactly when nothing but tables, or nothing at all, is on the way. */
  lemma {:induction false} SetSucceeds(doc: Doc, path: Path, value: Node)
    ensures SetAt(doc, path, value).Some? <==> forall n | 0 < n < |path| :: TableOrAbsent(At(doc, path[..n]))
    decreases |path|
  {
    if |path| > 1 {
      var sub := Sub(Get(doc, path[0]));
      SetSucceeds(sub, path[1..], value);
      assert At(doc, path[..1]) == Get(doc, path[0]);
      if TableOrAbsent(Get(doc, path[0])) {
        forall n | 0 < n < |path[1..]| ensures At(sub, path[1..][..n]) == At(doc, path[..n+1]) {
          assert path[..n+1][1..] == path[1..][..n];
          assert At(map[], path[1..][..n]).None?;
        }
        forall n | 1 < n < |path| ensures At(doc, path[..n]) == At(sub, path[1..][..n-1]) {
          assert At(sub, path[1..][..n-1]) == At(doc, path[..n-1+1]);
        }
      }
    }
  }

  /** A successful set is read back, and leaves every path it does not pass through alone. */
  lemma {:induction false} SetThenGet(doc: Doc, path: Path, value: Node, p: Path)
    requires SetAt(doc, path, value).Some?
    ensures At(SetAt(doc, path, value).value, path) == Some(value)
    ensures !(p <= path) && !(path <= p) ==> At(SetAt(doc, path, value).value, p) == At(doc, p)
    decreases |path|
  {
    if |path| > 1 {
      var sub := Sub(Get(doc, path[0]));
      SetThenGet(sub, path[1..], value, if |p| > 1 then p[1..] else p);
      if |p| > 1 && p[0] == path[0] {
        assert p == [p[0]] + p[1..] && path == [path[0]] + path[1..];
        assert At(map[], p[1..]).None?;
      }
    }
  }

  /** After a delete the path and everything below it is absent. */
  lemma {:induction false} DeleteRemoves(doc: Doc, path: Path, p: Path)
    requires path <= p
    ensures At(DeleteAt(doc, path), p).None?
    decreases |path|
  {
    if |path| > 1 && IsTable(Get(doc, path[0])) {
      DeleteRemoves(doc[path[0]].entries, path[1..], p[1..]);
    }
  }

  /** A path the delete does not cover keeps its value, or keeps a table there that may have shrunk. */
  lemma {:induction false} DeleteKeeps(doc: Doc, path: Path, p: Path)
    requires !(path <= p)
    ensures At(DeleteAt(doc, path), p) == At(doc, p) || (IsTable(At(doc, p)) && IsTable(At(DeleteAt(doc, path), p)))
    ensures !(p <= path) ==> At(DeleteAt(doc, path), p) == At(doc, p)
    decreases |path|
  {
    if |path| > 1 && |p| > 1 && p[0] == path[0] && IsTable(Get(doc, path[0])) {
      assert p == [p[0]] + p[1..] && path == [path[0]] + path[1..];
      DeleteKeeps(doc[path[0]].entries, path[1..], p[1..]);
    }
  }

  /** A delete never creates anything. */
  lemma {:induction false} DeleteKeepsAbsent(doc: Doc, path: Path, p: Path)
    requires At(doc, p).None?
    ensures At(DeleteAt(doc, path), p).None?
    decreases |path|
  {
    if path <= p {
      DeleteRemoves(doc, path, p);
    } else {
      DeleteKeeps(doc, path, p);
    }
  }
}
