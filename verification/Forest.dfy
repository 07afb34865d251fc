/**
 The file tree built from a flat node list (internal/tree/tree.go): orphans and cycles are hung below the
 root, so that the result is a forest whatever parents the list names.
 */
module Forest {
  datatype Node = Node(id: string, name: string, parent: string, isDir: bool, trashed: bool)

  type Nodes = map<string, Node>
  type Children = map<string, seq<string>>

  /** Following parents from id reaches the root, or a parent nobody has, within k steps. */
  ghost predicate RootedIn(nodes: Nodes, id: string, k: nat)
    decreases k
  {
    id == "" || id !in nodes || (k > 0 && RootedIn(nodes, nodes[id].parent, k - 1))
  }

  ghost predicate Rooted(nodes: Nodes, id: string) { exists k: nat :: RootedIn(nodes, id, k) }

  /** The parent a node is listed under: its own, or the root when nobody has that id. */
  function Effective(nodes: Nodes, id: string): string
    requires id in nodes
  {
    if nodes[id].parent in nodes then nodes[id].parent else ""
  }

  function Kids(children: Children, p: string): seq<string> {
    if p in children then children[p] else []
  }

  ghost predicate NoDuplicates(s: seq<string>) { forall i, j :: 0 <= i < j < |s| ==> s[i] != s[j] }

  /** The child lists are the effective parents, read backwards. */
  ghost predicate Matches(nodes: Nodes, children: Children) {
    && (forall p :: NoDuplicates(Kids(children, p)))
    && (forall p, id :: id in Kids(children, p) <==> id in nodes && Effective(nodes, id) == p)
  }

  // ---------------------------------------------------------------- chains and cycles

  lemma {:induction false} RootedByParent(nodes: Nodes, id: string)
    requires id in nodes && Rooted(nodes, nodes[id].parent)
    ensures Rooted(nodes, id)
  {
    var k: nat :| RootedIn(nodes, nodes[id].parent, k);
    assert RootedIn(nodes, id, k + 1);
  }

  /** Ids whose parents stay within the set never reach the root. */
  lemma {:induction false} ClosedSetNotRooted(nodes: Nodes, s: set<string>, id: string, k: nat)
    requires forall x :: x in s ==> x != "" && x in nodes && nodes[x].parent in s
    requires id in s
    ensures !RootedIn(nodes, id, k)
    decreases k
  {
    if k > 0 { ClosedSetNotRooted(nodes, s, nodes[id].parent, k - 1); }
  }

  function Rerooted(nodes: Nodes, id: string): Nodes
    requires id in nodes
  {
    nodes[id := nodes[id].(parent := "")]
  }

  /** Hanging a node below the root keeps every other chain that reached it. */
  lemma {:induction false} RerootKeepsRooted(nodes: Nodes, id: string, x: string, k: nat)
    requires id in nodes && RootedIn(nodes, x, k)
    ensures RootedIn(Rerooted(nodes, id), x, k)
    decreases k
  {
    if x != "" && x in nodes && x != id { RerootKeepsRooted(nodes, id, nodes[x].parent, k - 1); }
  }

  /** The nodes differ from the original ones only where a node that hung on a cycle was moved to the root. */
  ghost predicate OnlyCyclesMoved(before: Nodes, nodes: Nodes) {
    && nodes.Keys == before.Keys
    && (forall id :: id in nodes ==>
          nodes[id] == before[id] || (nodes[id] == before[id].(parent := "") && !Rooted(before, id)))
    && (forall id :: Rooted(before, id) ==> Rooted(nodes, id))
  }

  lemma {:induction false} RerootStep(before: Nodes, nodes: Nodes, id: string)
    requires OnlyCyclesMoved(before, nodes) && id in nodes && !Rooted(nodes, id)
    ensures OnlyCyclesMoved(before, Rerooted(nodes, id))
    ensures forall x :: Rooted(nodes, x) ==> Rooted(Rerooted(nodes, id), x)
    ensures Rooted(Rerooted(nodes, id), id)
  {
    forall x | Rooted(nodes, x) ensures Rooted(Rerooted(nodes, id), x) {
      var k: nat :| RootedIn(nodes, x, k);
      RerootKeepsRooted(nodes, id, x, k);
    }
    assert RootedIn(Rerooted(nodes, id), id, 1);
  }

  // ---------------------------------------------------------------- child lists

  function Without(s: seq<string>, id: string): seq<string> {
    if s == [] then [] else if s[0] == id then s[1..] else [s[0]] + Without(s[1..], id)
  }

  lemma {:induction false} WithoutRemoves(s: seq<string>, id: string)
    requires NoDuplicates(s)
    ensures NoDuplicates(Without(s, id))
    ensures forall x :: x in Without(s, id) <==> x in s && x != id
  {
    if s != [] && s[0] != id {
      WithoutRemoves(s[1..], id);
      assert s[0] !in s[1..];
    }
  }

  /** The id leaves the list it stands in. */
  function Cut(children: Children, p: string, id: string): Children {
    if id in Kids(children, p) then children[p := Without(Kids(children, p), id)] else children
  }

  /** The list edit of reroot. */
  function Moved(nodes: Nodes, children: Children, id: string): Children
    requires id in nodes
  {
    var cut := Cut(children, nodes[id].parent, id);
    cut["" := Kids(cut, "") + [id]]
  }

  /** Taking the element at the first position of id out of a list. */
  lemma {:induction false} WithoutAt(s: seq<string>, id: string, i: nat)
    requires i < |s| && s[i] == id && forall j :: 0 <= j < i ==> s[j] != id
    ensures Without(s, id) == s[..i] + s[i + 1..]
  {
    if i > 0 { WithoutAt(s[1..], id, i - 1); }
  }

  lemma {:induction false} MovedMembers(nodes: Nodes, children: Children, id: string, q: string, x: string)
    requires id in nodes && "" !in nodes && Matches(nodes, children)
    requires nodes[id].parent != "" && nodes[id].parent in nodes
    ensures NoDuplicates(Kids(Moved(nodes, children, id), q))
    ensures x in Kids(Moved(nodes, children, id), q) <==>
              x in nodes && Effective(Rerooted(nodes, id), x) == q
  {
    var p := nodes[id].parent;
    WithoutRemoves(Kids(children, p), id);
    assert Effective(nodes, id) == p;
    assert id !in Kids(children, "");
    assert Effective(Rerooted(nodes, id), id) == "";
    assert x in Kids(children, q) <==> x in nodes && Effective(nodes, x) == q;
    assert NoDuplicates(Kids(children, q));
  }

  lemma {:induction false} MoveMatches(nodes: Nodes, children: Children, id: string)
    requires id in nodes && "" !in nodes && Matches(nodes, children)
    requires nodes[id].parent != "" && nodes[id].parent in nodes
    ensures Matches(Rerooted(nodes, id), Moved(nodes, children, id))
  {
    forall q, x
      ensures NoDuplicates(Kids(Moved(nodes, children, id), q))
      ensures x in Kids(Moved(nodes, children, id), q) <==> x in nodes && Effective(Rerooted(nodes, id), x) == q
    {
      MovedMembers(nodes, children, id, q, x);
    }
  }

  // ---------------------------------------------------------------- display order

  /** Folders first, then by the rank of the case-folded name. */
  predicate Ahead(nodes: Nodes, rank: string -> int, a: string, b: string)
    requires a in nodes && b in nodes
  {
    if nodes[a].isDir != nodes[b].isDir then nodes[a].isDir else rank(nodes[a].name) < rank(nodes[b].name)
  }

  ghost predicate InOrder(nodes: Nodes, rank: string -> int, s: seq<string>) {
    && (forall x :: x in s ==> x in nodes)
    && (forall i, j :: 0 <= i < j < |s| ==> !Ahead(nodes, rank, s[j], s[i]))
  }

  function InsertId(nodes: Nodes, rank: string -> int, id: string, s: seq<string>): seq<string>
    requires id in nodes && forall x :: x in s ==> x in nodes
  {
    if s == [] || !Ahead(nodes, rank, s[0], id) then [id] + s
    else [s[0]] + InsertId(nodes, rank, id, s[1..])
  }

  function SortIds(nodes: Nodes, rank: string -> int, s: seq<string>): seq<string>
    requires forall x :: x in s ==> x in nodes
    ensures forall x :: x in SortIds(nodes, rank, s) ==> x in nodes
  {
    if s == [] then []
    else
      InsertMembers(nodes, rank, s[0], SortIds(nodes, rank, s[1..]));
      InsertId(nodes, rank, s[0], SortIds(nodes, rank, s[1..]))
  }

  lemma {:induction false} InsertMembers(nodes: Nodes, rank: string -> int, id: string, s: seq<string>)
    requires id in nodes && forall x :: x in s ==> x in nodes
    ensures |InsertId(nodes, rank, id, s)| == |s| + 1
    ensures forall x :: x in InsertId(nodes, rank, id, s) <==> x == id || x in s
    ensures id !in s && NoDuplicates(s) ==> NoDuplicates(InsertId(nodes, rank, id, s))
    decreases |s|
  {
    if s != [] && Ahead(nodes, rank, s[0], id) {
      InsertMembers(nodes, rank, id, s[1..]);
      assert forall x :: x in s <==> x == s[0] || x in s[1..];
      var rest := InsertId(nodes, rank, id, s[1..]);
      if id !in s && NoDuplicates(s) { ConsDistinct(s[0], rest); }
    } else if id !in s && NoDuplicates(s) {
      ConsDistinct(id, s);
    }
  }

  lemma {:induction false} ConsDistinct(x: string, s: seq<string>)
    requires x !in s && NoDuplicates(s)
    ensures NoDuplicates([x] + s)
  {
    var t := [x] + s;
    forall i, j | 0 <= i < j < |t| ensures t[i] != t[j] {
      assert t[j] == s[j - 1];
      if i > 0 { assert t[i] == s[i - 1]; }
    }
  }

  lemma {:induction false} InsertInOrder(nodes: Nodes, rank: string -> int, id: string, s: seq<string>)
    requires id in nodes && InOrder(nodes, rank, s)
    ensures InOrder(nodes, rank, InsertId(nodes, rank, id, s))
    decreases |s|
  {
    InsertMembers(nodes, rank, id, s);
    if s != [] && Ahead(nodes, rank, s[0], id) {
      InsertInOrder(nodes, rank, id, s[1..]);
      InsertMembers(nodes, rank, id, s[1..]);
      var rest := InsertId(nodes, rank, id, s[1..]);
      forall j | 0 <= j < |rest| ensures !Ahead(nodes, rank, rest[j], s[0]) {
        assert rest[j] in rest;
        if rest[j] in s[1..] {
          var i :| 0 <= i < |s[1..]| && s[1..][i] == rest[j];
          assert s[i + 1] == rest[j];
        }
      }
    } else if s != [] {
      forall j | 0 <= j < |s| ensures !Ahead(nodes, rank, s[j], id) {
        assert j > 0 ==> !Ahead(nodes, rank, s[j], s[0]);
      }
    }
  }

  /** Sorting a duplicate-free list permutes it into display order. */
  lemma {:induction false} SortPermutes(nodes: Nodes, rank: string -> int, s: seq<string>)
    requires forall x :: x in s ==> x in nodes
    ensures |SortIds(nodes, rank, s)| == |s|
    ensures forall x :: x in SortIds(nodes, rank, s) <==> x in s
    ensures NoDuplicates(s) ==> NoDuplicates(SortIds(nodes, rank, s))
    ensures InOrder(nodes, rank, SortIds(nodes, rank, s))
  {
    if s != [] {
      SortPermutes(nodes, rank, s[1..]);
      InsertMembers(nodes, rank, s[0], SortIds(nodes, rank, s[1..]));
      InsertInOrder(nodes, rank, s[0], SortIds(nodes, rank, s[1..]));
      assert forall x :: x in s <==> x == s[0] || x in s[1..];
      assert NoDuplicates(s) ==> s[0] !in s[1..];
    }
  }
}
