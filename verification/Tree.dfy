/** The Tree object of internal/tree/tree.go: its construction and the breadth-first descendant list. */
module Tree {
  import opened Forest
  import opened Paths
  import opened Options

  ghost predicate DistinctIds(list: seq<Node>) {
    && (forall i :: 0 <= i < |list| ==> list[i].id != "")
    && (forall i, j :: 0 <= i < j < |list| ==> list[i].id != list[j].id)
  }

  /** A later node with the same id replaces an earlier one. */
  function ById(list: seq<Node>): Nodes {
    if list == [] then map[]
    else var n := list[|list| - 1]; ById(list[..|list| - 1])[n.id := n]
  }

  lemma {:induction false} ByIdHolds(list: seq<Node>)
    ensures forall id :: id in ById(list) <==> exists i :: 0 <= i < |list| && list[i].id == id
    ensures forall id :: id in ById(list) ==> ById(list)[id].id == id
    ensures DistinctIds(list) ==> forall i :: 0 <= i < |list| ==> ById(list)[list[i].id] == list[i]
  {
    if list != [] { ByIdHolds(list[..|list| - 1]); }
  }

  /** Where New files a node: under its parent, or under the root when nobody has that id. */
  function Slot(nodes: Nodes, n: Node): string {
    if n.parent != "" && n.parent !in nodes then "" else n.parent
  }

  /** The child lists after filing the nodes in list order. */
  function Filings(list: seq<Node>, nodes: Nodes): Children {
    if list == [] then map[]
    else
      var n := list[|list| - 1];
      var rest := Filings(list[..|list| - 1], nodes);
      rest[Slot(nodes, n) := Kids(rest, Slot(nodes, n)) + [n.id]]
  }

  function Strays(list: seq<Node>, nodes: Nodes): seq<string> {
    if list == [] then []
    else
      var n := list[|list| - 1];
      Strays(list[..|list| - 1], nodes) + (if n.parent != "" && n.parent !in nodes then [n.id] else [])
  }

  ghost predicate Known(nodes: Nodes, children: Children) {
    forall p, x :: x in Kids(children, p) ==> x in nodes
  }

  /** An id is filed under p when some node of the list carries it and belongs there. */
  lemma {:induction false} FilingsMembers(list: seq<Node>, nodes: Nodes, p: string, x: string)
    ensures x in Kids(Filings(list, nodes), p) <==>
              exists k :: 0 <= k < |list| && list[k].id == x && Slot(nodes, list[k]) == p
  {
    if list != [] {
      var n := |list| - 1;
      FilingsMembers(list[..n], nodes, p, x);
      var was := Kids(Filings(list[..n], nodes), p);
      var now := Kids(Filings(list, nodes), p);
      if Slot(nodes, list[n]) == p {
        assert now == was + [list[n].id];
      } else {
        assert now == was;
      }
      if k :| 0 <= k < n && list[..n][k].id == x && Slot(nodes, list[..n][k]) == p {
        assert list[k].id == x;
      }
      if k :| 0 <= k < n && list[k].id == x && Slot(nodes, list[k]) == p {
        assert list[..n][k].id == x;
      }
    }
  }

  lemma {:induction false} FilingsDistinct(list: seq<Node>, nodes: Nodes, p: string)
    requires DistinctIds(list)
    ensures NoDuplicates(Kids(Filings(list, nodes), p))
  {
    if list != [] {
      var n := |list| - 1;
      FilingsDistinct(list[..n], nodes, p);
      FilingsMembers(list[..n], nodes, p, list[n].id);
    }
  }

  lemma {:induction false} FilingsMatch(list: seq<Node>)
    ensures Known(ById(list), Filings(list, ById(list)))
    ensures DistinctIds(list) ==> Matches(ById(list), Filings(list, ById(list)))
  {
    var nodes := ById(list);
    var children := Filings(list, nodes);
    ByIdHolds(list);
    forall p, x | x in Kids(children, p) ensures x in nodes {
      FilingsMembers(list, nodes, p, x);
    }
    if DistinctIds(list) {
      forall p ensures NoDuplicates(Kids(children, p)) { FilingsDistinct(list, nodes, p); }
      forall p, x ensures x in Kids(children, p) <==> x in nodes && Effective(nodes, x) == p {
        FilingsMembers(list, nodes, p, x);
        SlotIsEffective(list, p, x);
      }
    }
  }

  lemma {:induction false} SlotIsEffective(list: seq<Node>, p: string, x: string)
    requires DistinctIds(list)
    ensures (exists k :: 0 <= k < |list| && list[k].id == x && Slot(ById(list), list[k]) == p)
              <==> x in ById(list) && Effective(ById(list), x) == p
  {
    ByIdHolds(list);
    assert "" !in ById(list);
    if x in ById(list) {
      var k :| 0 <= k < |list| && list[k].id == x;
      assert Slot(ById(list), list[k]) == Effective(ById(list), x);
    }
  }

  lemma {:induction false} StraysAre(list: seq<Node>, nodes: Nodes, x: string)
    ensures x in Strays(list, nodes) <==>
              exists k :: 0 <= k < |list| && list[k].id == x && list[k].parent != "" && list[k].parent !in nodes
  {
    if list != [] {
      var n := |list| - 1;
      StraysAre(list[..n], nodes, x);
      if k :| 0 <= k < n && list[k].id == x && list[k].parent != "" && list[k].parent !in nodes {
        assert list[..n][k].id == x;
      }
    }
  }

  lemma {:induction false} StraysOf(list: seq<Node>, x: string)
    requires DistinctIds(list)
    ensures x in Strays(list, ById(list)) <==>
              x in ById(list) && ById(list)[x].parent != "" && ById(list)[x].parent !in ById(list)
  {
    ByIdHolds(list);
    StraysAre(list, ById(list), x);
  }

  /** The display sort of every child list. */
  function Sorted(nodes: Nodes, rank: string -> int, children: Children): Children
    requires Known(nodes, children)
  {
    map p | p in children :: SortIds(nodes, rank, Kids(children, p))
  }

  lemma {:induction false} SortedLists(nodes: Nodes, rank: string -> int, children: Children, p: string)
    requires Known(nodes, children)
    ensures var s := Kids(Sorted(nodes, rank, children), p);
            && InOrder(nodes, rank, s)
            && (forall x :: x in s <==> x in Kids(children, p))
            && (NoDuplicates(Kids(children, p)) ==> NoDuplicates(s))
  {
    SortPermutes(nodes, rank, Kids(children, p));
  }

  lemma {:induction false} SortedMatches(nodes: Nodes, rank: string -> int, children: Children)
    requires Known(nodes, children)
    ensures forall p :: InOrder(nodes, rank, Kids(Sorted(nodes, rank, children), p))
    ensures Matches(nodes, children) ==> Matches(nodes, Sorted(nodes, rank, children))
  {
    forall p ensures var s := Kids(Sorted(nodes, rank, children), p);
            && InOrder(nodes, rank, s)
            && (forall x :: x in s <==> x in Kids(children, p))
            && (NoDuplicates(Kids(children, p)) ==> NoDuplicates(s))
    {
      SortedLists(nodes, rank, children, p);
    }
  }

  /** The walk of detachCycles from id to cur: each step goes to the parent. */
  ghost predicate IsChain(nodes: Nodes, chain: seq<string>, id: string, cur: string)
    decreases |chain|
  {
    if chain == [] then id == cur
    else
      var last := chain[|chain| - 1];
      last != "" && last in nodes && nodes[last].parent == cur && IsChain(nodes, chain[..|chain| - 1], id, last)
  }

  lemma {:induction false} ChainRooted(nodes: Nodes, chain: seq<string>, id: string, cur: string)
    requires IsChain(nodes, chain, id, cur) && Rooted(nodes, cur)
    ensures Rooted(nodes, id) && forall x :: x in chain ==> Rooted(nodes, x)
  {
    if chain != [] {
      var n := |chain| - 1;
      RootedByParent(nodes, chain[n]);
      ChainRooted(nodes, chain[..n], id, chain[n]);
      assert chain == chain[..n] + [chain[n]];
    }
  }

  lemma {:induction false} ChainParents(nodes: Nodes, chain: seq<string>, id: string, cur: string)
    requires IsChain(nodes, chain, id, cur)
    ensures forall x :: x in chain ==> x != "" && x in nodes && (nodes[x].parent == cur || nodes[x].parent in chain)
    ensures chain != [] ==> id in chain
  {
    if chain != [] {
      var n := |chain| - 1;
      ChainParents(nodes, chain[..n], id, chain[n]);
      assert chain == chain[..n] + [chain[n]];
    }
  }

  /** A chain that returns to itself hangs on a cycle. */
  lemma {:induction false} ChainCyclic(nodes: Nodes, chain: seq<string>, id: string, cur: string)
    requires IsChain(nodes, chain, id, cur) && cur in chain
    ensures !Rooted(nodes, id)
  {
    var s := set x | x in chain;
    ChainParents(nodes, chain, id, cur);
    forall k: nat ensures !RootedIn(nodes, id, k) { ClosedSetNotRooted(nodes, s, id, k); }
  }

  // ---------------------------------------------------------------- descendants

  /** There is a path of at most k child lists from p down to id. */
  ghost predicate BelowIn(children: Children, p: string, id: string, k: nat)
    decreases k
  {
    k > 0 && exists q :: id in Kids(children, q) && (q == p || BelowIn(children, p, q, k - 1))
  }

  ghost predicate Below(children: Children, p: string, id: string) { exists k: nat :: BelowIn(children, p, id, k) }

  ghost function Listed(children: Children): set<string> {
    set p, x | p in children && x in children[p] :: x
  }

  ghost predicate Visited(children: Children, p: string, seen: set<string>, out: seq<string>) {
    && NoDuplicates(out) && p !in out
    && (forall x :: x in seen <==> x == p || x in out)
    && (forall x :: x in out ==> Below(children, p, x))
  }

  /** Every child of a visited node is visited or pending, and whatever is pending lies below p. */
  ghost predicate Pending(children: Children, p: string, seen: set<string>, pending: seq<string>) {
    && (forall x :: x in pending ==> Below(children, p, x) && x in Listed(children))
    && (forall q, x :: q in seen && x in Kids(children, q) ==> x in seen || x in pending)
  }

  lemma {:induction false} KidBelow(children: Children, p: string, q: string, x: string)
    requires (q == p || Below(children, p, q)) && x in Kids(children, q)
    ensures Below(children, p, x) && x in Listed(children)
  {
    if q == p {
      assert BelowIn(children, p, x, 1);
    } else {
      var k: nat :| BelowIn(children, p, q, k);
      assert BelowIn(children, p, x, k + 1);
    }
  }

  /** How many listed ids are not yet visited. */
  ghost function Unseen(children: Children, seen: set<string>): nat { |Listed(children) - seen| }

  lemma {:induction false} VisitStep(children: Children, p: string, seen: set<string>, out: seq<string>, id: string,
                                     todo: seq<string>,
                  rest: seq<string>)
    requires Visited(children, p, seen, out) && Pending(children, p, seen, todo)
    requires forall x :: x in todo <==> x == id || x in rest
    ensures id in seen ==> Pending(children, p, seen, rest)
    ensures id !in seen ==> Visited(children, p, seen + {id}, out + [id])
    ensures id !in seen ==> Pending(children, p, seen + {id}, rest + Kids(children, id))
    ensures id !in seen ==> Unseen(children, seen + {id}) < Unseen(children, seen)
  {
    assert id in todo;
    forall x | x in Kids(children, id) ensures Below(children, p, x) && x in Listed(children) {
      KidBelow(children, p, id, x);
    }
    if id !in seen { Smaller(Listed(children) - (seen + {id}), Listed(children) - seen); }
  }

  datatype Walk = Walk(seen: set<string>, out: seq<string>, next: seq<string>)

  function Visit(children: Children, w: Walk, id: string): Walk {
    if id in w.seen then w else Walk(w.seen + {id}, w.out + [id], w.next + Kids(children, id))
  }

  function VisitAll(children: Children, w: Walk, frontier: seq<string>): Walk
    decreases |frontier|
  {
    if frontier == [] then w else VisitAll(children, Visit(children, w, frontier[0]), frontier[1..])
  }

  /** The child lists of some nodes, one behind the other. */
  function Offered(children: Children, ids: seq<string>): seq<string> {
    if ids == [] then [] else Offered(children, ids[..|ids| - 1]) + Kids(children, ids[|ids| - 1])
  }

  /** The ids of a list without p, each at its first place. */
  function Firsts(ids: seq<string>, p: string): seq<string> {
    if ids == [] then []
    else
      var before, id := Firsts(ids[..|ids| - 1], p), ids[|ids| - 1];
      if id == p || id in before then before else before + [id]
  }

  /** What was offered is done, on the frontier, or on the next level; the first places in what is done were visited. */
  predicate OrderedAt(children: Children, p: string, w: Walk, frontier: seq<string>, done: seq<string>) {
    Offered(children, [p] + w.out) == done + (frontier + w.next) && w.out == Firsts(done, p)
  }

  ghost predicate Ordered(children: Children, p: string, w: Walk, frontier: seq<string>) {
    exists done :: OrderedAt(children, p, w, frontier, done)
  }

  lemma {:induction false} OfferedNext(children: Children, p: string, out: seq<string>, id: string)
    ensures Offered(children, [p] + (out + [id])) == Offered(children, [p] + out) + Kids(children, id)
  {
    assert ([p] + (out + [id]))[..|out| + 1] == [p] + out;
  }

  lemma {:induction false} FirstsNext(done: seq<string>, p: string, id: string)
    ensures Firsts(done + [id], p) == Firsts(done, p) + if id == p || id in Firsts(done, p) then [] else [id]
  {
    assert (done + [id])[..|done|] == done;
  }

  lemma {:induction false} Regroup(done: seq<string>, id: string, rest: seq<string>, next: seq<string>,
                                   more: seq<string>)
    ensures done + (([id] + rest) + next) + more == (done + [id]) + (rest + (next + more))
  {
  }

  lemma {:induction false} OrderedNext(children: Children, p: string, w: Walk, id: string, rest: seq<string>)
    requires Ordered(children, p, w, [id] + rest) && forall x :: x in w.seen <==> x == p || x in w.out
    ensures Ordered(children, p, Visit(children, w, id), rest)
  {
    var done :| OrderedAt(children, p, w, [id] + rest, done);
    FirstsNext(done, p, id);
    if id in w.seen {
      Regroup(done, id, rest, w.next, []);
      assert w.out + [] == w.out && w.next + [] == w.next;
      assert OrderedAt(children, p, w, rest, done + [id]);
    } else {
      OfferedNext(children, p, w.out, id);
      Regroup(done, id, rest, w.next, Kids(children, id));
      assert OrderedAt(children, p, Visit(children, w, id), rest, done + [id]);
    }
  }

  ghost predicate Reaching(children: Children, p: string, w: Walk, frontier: seq<string>) {
    Visited(children, p, w.seen, w.out) && Pending(children, p, w.seen, frontier + w.next)
  }

  ghost predicate Exploring(children: Children, p: string, w: Walk, frontier: seq<string>) {
    Reaching(children, p, w, frontier) && Ordered(children, p, w, frontier)
  }

  lemma {:induction false} VisitReaches(children: Children, p: string, w: Walk, id: string, rest: seq<string>)
    requires Reaching(children, p, w, [id] + rest)
    ensures var r := Visit(children, w, id);
            && Reaching(children, p, r, rest)
            && (r.seen != w.seen ==> Unseen(children, r.seen) < Unseen(children, w.seen))
  {
    Brackets([id], rest, w.next);
    VisitStep(children, p, w.seen, w.out, id, [id] + rest + w.next, rest + w.next);
    Brackets(rest, w.next, Kids(children, id));
  }

  lemma {:induction false} Brackets(a: seq<string>, b: seq<string>, c: seq<string>)
    ensures a + b + c == a + (b + c)
  {
  }

  lemma {:induction false} VisitKeeps(children: Children, p: string, w: Walk, frontier: seq<string>)
    requires frontier != [] && Exploring(children, p, w, frontier)
    ensures var r := Visit(children, w, frontier[0]);
            && Exploring(children, p, r, frontier[1..])
            && (r.seen != w.seen ==> Unseen(children, r.seen) < Unseen(children, w.seen))
  {
    assert frontier == [frontier[0]] + frontier[1..];
    VisitReaches(children, p, w, frontier[0], frontier[1..]);
    OrderedNext(children, p, w, frontier[0], frontier[1..]);
  }

  lemma {:induction false} StartWalk(children: Children, p: string)
    ensures Exploring(children, p, Walk({p}, [], []), Kids(children, p))
  {
    forall x | x in Kids(children, p) ensures Below(children, p, x) && x in Listed(children) {
      KidBelow(children, p, p, x);
    }
    StartOrder(children, p);
  }

  lemma {:induction false} StartOrder(children: Children, p: string)
    ensures Ordered(children, p, Walk({p}, [], []), Kids(children, p))
  {
    assert [p] + [] == [p] && [p][..0] == [];
    assert [] + (Kids(children, p) + []) == [] + Kids(children, p);
    assert OrderedAt(children, p, Walk({p}, [], []), Kids(children, p), []);
  }

  lemma {:induction false} NextLevel(children: Children, p: string, w: Walk)
    requires Exploring(children, p, w, [])
    ensures Exploring(children, p, w.(next := []), w.next)
  {
    assert [] + w.next == w.next + [];
    var done :| OrderedAt(children, p, w, [], done);
    assert OrderedAt(children, p, w.(next := []), w.next, done);
  }

  lemma {:induction false} LevelKeeps(children: Children, p: string, w: Walk, frontier: seq<string>)
    requires Exploring(children, p, w, frontier)
    ensures var r := VisitAll(children, w, frontier);
            && Exploring(children, p, r, [])
            && (r == w || Unseen(children, r.seen) < Unseen(children, w.seen))
    decreases |frontier|
  {
    if frontier != [] {
      VisitKeeps(children, p, w, frontier);
      LevelKeeps(children, p, Visit(children, w, frontier[0]), frontier[1..]);
    }
  }

  lemma {:induction false} ClosedBelow(children: Children, p: string, seen: set<string>, x: string, k: nat)
    requires p in seen && Pending(children, p, seen, []) && BelowIn(children, p, x, k)
    ensures x in seen
    decreases k
  {
    var q :| x in Kids(children, q) && (q == p || BelowIn(children, p, q, k - 1));
    if q != p { ClosedBelow(children, p, seen, q, k - 1); }
  }

  lemma {:induction false} RootedBelow(nodes: Nodes, children: Children, id: string, k: nat)
    requires id in nodes && "" !in nodes && Matches(nodes, children) && RootedIn(nodes, id, k)
    ensures BelowIn(children, "", id, k)
    decreases k
  {
    var q := Effective(nodes, id);
    assert id in Kids(children, q);
    if q != "" { RootedBelow(nodes, children, q, k - 1); }
  }

  lemma {:induction false} ListsEverything(children: Children, p: string, seen: set<string>, out: seq<string>)
    requires Exploring(children, p, Walk(seen, out, []), [])
    ensures NoDuplicates(out)
    ensures forall x :: x in out <==> x != p && Below(children, p, x)
    ensures out == Firsts(Offered(children, [p] + out), p)
  {
    forall x | x != p && Below(children, p, x) ensures x in out {
      var k: nat :| BelowIn(children, p, x, k);
      ClosedBelow(children, p, seen, x, k);
    }
    var done :| OrderedAt(children, p, Walk(seen, out, []), [], done);
    assert done + ([] + []) == done;
  }

  lemma {:induction false} RootListsAll(nodes: Nodes, children: Children)
    requires "" !in nodes && Matches(nodes, children) && forall id :: id in nodes ==> Rooted(nodes, id)
    ensures forall x :: x != "" && Below(children, "", x) <==> x in nodes
  {
    forall x ensures x != "" && Below(children, "", x) <==> x in nodes {
      if x in nodes {
        var k: nat :| RootedIn(nodes, x, k);
        RootedBelow(nodes, children, x, k);
      }
    }
  }

  // ---------------------------------------------------------------- paths

  function NamesAlong(nodes: Nodes, chain: seq<string>): (names: seq<string>)
    requires forall x :: x in chain ==> x in nodes
    ensures |names| == |chain|
  {
    if chain == [] then [] else NamesAlong(nodes, chain[..|chain| - 1]) + [nodes[chain[|chain| - 1]].name]
  }

  function Reversed(s: seq<string>): (r: seq<string>)
    ensures |r| == |s| && forall i :: 0 <= i < |s| ==> r[i] == s[|s| - 1 - i]
  {
    if s == [] then [] else [s[|s| - 1]] + Reversed(s[..|s| - 1])
  }

  lemma {:induction false} ChainNames(nodes: Nodes, chain: seq<string>, id: string, cur: string, k: nat)
    requires IsChain(nodes, chain, id, cur) && (forall x :: x in chain ==> x in nodes) && CompleteIn(nodes, cur, k)
    ensures CompleteIn(nodes, id, k + |chain|)
    ensures Names(nodes, id, k + |chain|) == Names(nodes, cur, k) + Reversed(NamesAlong(nodes, chain))
  {
    if chain != [] {
      var n := |chain| - 1;
      var name := nodes[chain[n]].name;
      NamesUp(nodes, chain[n], k);
      ChainNames(nodes, chain[..n], id, chain[n], k + 1);
      ReversedSnoc(NamesAlong(nodes, chain[..n]), name);
      MoveBracket(Names(nodes, cur, k), name, Reversed(NamesAlong(nodes, chain[..n])));
      assert k + 1 + n == k + |chain|;
    }
  }

  lemma {:induction false} NamesUp(nodes: Nodes, id: string, k: nat)
    requires id != "" && id in nodes && CompleteIn(nodes, nodes[id].parent, k)
    ensures CompleteIn(nodes, id, k + 1)
    ensures Names(nodes, id, k + 1) == Names(nodes, nodes[id].parent, k) + [nodes[id].name]
  {
  }

  lemma {:induction false} MoveBracket(a: seq<string>, x: string, b: seq<string>)
    ensures a + [x] + b == a + ([x] + b)
  {
  }

  lemma {:induction false} ReversedSnoc(s: seq<string>, x: string)
    ensures Reversed(s + [x]) == [x] + Reversed(s)
  {
    assert (s + [x])[..|s|] == s;
  }

  lemma {:induction false} ChainComplete(nodes: Nodes, chain: seq<string>, id: string, cur: string)
    requires IsChain(nodes, chain, id, cur) && Complete(nodes, id)
    ensures Complete(nodes, cur)
  {
    if chain != [] {
      var last := chain[|chain| - 1];
      ChainComplete(nodes, chain[..|chain| - 1], id, last);
      var k: nat :| CompleteIn(nodes, last, k);
      assert CompleteIn(nodes, cur, k - 1);
    }
  }

  lemma {:induction false} CompleteIsRooted(nodes: Nodes, id: string, k: nat)
    requires CompleteIn(nodes, id, k)
    ensures RootedIn(nodes, id, k)
    decreases k
  {
    if id != "" { CompleteIsRooted(nodes, nodes[id].parent, k - 1); }
  }

  /** The walk of PathOf from id up to cur, and the names it collected. */
  ghost predicate Climbing(nodes: Nodes, chain: seq<string>, seen: set<string>, parts: seq<string>, id: string,
                           cur: string) {
    && IsChain(nodes, chain, id, cur)
    && (forall x :: x in seen <==> x in chain)
    && (forall x :: x in chain ==> x in nodes)
    && parts == NamesAlong(nodes, chain)
  }

  lemma {:induction false} ClimbStep(nodes: Nodes, chain: seq<string>, seen: set<string>, parts: seq<string>,
                                     id: string,
                                     cur: string)
    requires Climbing(nodes, chain, seen, parts, id, cur) && cur != "" && cur in nodes && cur !in seen
    ensures Climbing(nodes, chain + [cur], seen + {cur}, parts + [nodes[cur].name], id, nodes[cur].parent)
    ensures |nodes.Keys - (seen + {cur})| < |nodes.Keys - seen|
  {
    assert (chain + [cur])[..|chain|] == chain;
    assert cur in nodes.Keys - seen;
    Smaller(nodes.Keys - (seen + {cur}), nodes.Keys - seen);
  }

  /** A chain that arrives at the root spells the path. */
  lemma {:induction false} ChainIsPath(nodes: Nodes, chain: seq<string>, id: string)
    requires IsChain(nodes, chain, id, "") && forall x :: x in chain ==> x in nodes
    ensures PathTo(nodes, id) == Join(Reversed(NamesAlong(nodes, chain)))
  {
    var k := |chain|;
    ChainNames(nodes, chain, id, "", 0);
    assert [] + Reversed(NamesAlong(nodes, chain)) == Reversed(NamesAlong(nodes, chain));
    var j: nat :| CompleteIn(nodes, id, j) && PathTo(nodes, id) == Join(Names(nodes, id, j));
    NamesUnique(nodes, id, j, k);
  }

  lemma {:induction false} ChainBroken(nodes: Nodes, chain: seq<string>, id: string, cur: string)
    requires IsChain(nodes, chain, id, cur) && cur != "" && (cur in chain || cur !in nodes)
    ensures PathTo(nodes, id) == ""
  {
    if cur in chain {
      ChainCyclic(nodes, chain, id, cur);
      if k: nat :| CompleteIn(nodes, id, k) { CompleteIsRooted(nodes, id, k); }
    } else if Complete(nodes, id) {
      ChainComplete(nodes, chain, id, cur);
    }
  }

  // ---------------------------------------------------------------- detaching

  /** What detachCycles has done so far to the nodes, the child lists and the orphans. */
  ghost predicate Detached(nodes0: Nodes, children0: Children, orphans0: seq<string>, nodes: Nodes, children: Children,
                           orphans: seq<string>)
  {
    && OnlyCyclesMoved(nodes0, nodes)
    && (Known(nodes0, children0) ==> Known(nodes, children))
    && ("" !in nodes0 && Matches(nodes0, children0) ==> Matches(nodes, children))
    && (forall id :: id in orphans <==> id in orphans0 || (id in nodes && nodes[id] != nodes0[id]))
  }

  lemma {:induction false} DetachNext(nodes0: Nodes, children0: Children, orphans0: seq<string>, nodes: Nodes,
                                      children: Children, orphans: seq<string>, id: string)
    requires Detached(nodes0, children0, orphans0, nodes, children, orphans) && id in nodes && !Rooted(nodes, id)
    ensures Detached(nodes0, children0, orphans0, Rerooted(nodes, id), Moved(nodes, children, id), orphans + [id])
    ensures nodes[id].parent != "" && Rooted(Rerooted(nodes, id), id)
    ensures forall x :: Rooted(nodes, x) ==> Rooted(Rerooted(nodes, id), x)
  {
    NotRootedParent(nodes, id);
    RerootStep(nodes0, nodes, id);
    if "" !in nodes && Matches(nodes, children) { MoveMatches(nodes, children, id); }
    if Known(nodes, children) { MoveKnown(nodes, children, id); }
    assert nodes[id] == nodes0[id];
  }

  class Tree {
    var byID: Nodes
    var children: Children
    var orphans: seq<string>

    /** Every node's parents lead to the root, and the child lists say the same. */
    ghost predicate IsForest()
      reads this
    {
      && "" !in byID
      && (forall id :: id in byID ==> Rooted(byID, id))
      && Matches(byID, children)
    }

    /**
     New.  For distinct non-empty ids the result is a forest with matching child lists in display order, in
     which only nodes that hung on a cycle have a new parent; the orphans are the nodes that moved.
     */
    constructor New(list: seq<Node>, rank: string -> int)
      ensures byID.Keys == ById(list).Keys
      ensures DistinctIds(list) ==> IsForest() && OnlyCyclesMoved(ById(list), byID)
      ensures DistinctIds(list) ==> forall p :: InOrder(byID, rank, Kids(children, p))
      ensures DistinctIds(list) ==> forall id :: id in orphans <==>
                && id in byID
                && (byID[id] != ById(list)[id] || (ById(list)[id].parent != "" && ById(list)[id].parent !in byID))
    {
      byID, children, orphans := map[], map[], [];
      new;
      var i := 0;
      while i < |list|
        invariant 0 <= i <= |list| && byID == ById(list[..i]) && children == map[] && orphans == []
      {
        assert list[..i + 1][..i] == list[..i];
        byID := byID[list[i].id := list[i]];
        i := i + 1;
      }
      assert list[..i] == list;
      FileChildren(list);
      FilingsMatch(list);
      if DistinctIds(list) {
        ByIdHolds(list);
        assert "" !in byID;
        forall x ensures x in orphans <==> x in byID && byID[x].parent != "" && byID[x].parent !in byID {
          StraysOf(list, x);
        }
      }
      DetachCycles();
      SortedMatches(byID, rank, children);
      children := Sorted(byID, rank, children);
    }

    /** The second loop of New: file every node under its parent, or under the root. */
    method FileChildren(list: seq<Node>)
      requires children == map[] && orphans == []
      modifies this`children, this`orphans
      ensures children == Filings(list, byID) && orphans == Strays(list, byID)
    {
      var i := 0;
      while i < |list|
        invariant 0 <= i <= |list|
        invariant children == Filings(list[..i], byID) && orphans == Strays(list[..i], byID)
      {
        assert list[..i + 1][..i] == list[..i];
        var n := list[i];
        var p := n.parent;
        if p != "" && p !in byID {
          orphans := orphans + [n.id];
          p := "";
        }
        children := children[p := Kids(children, p) + [n.id]];
        i := i + 1;
      }
      assert list[..i] == list;
    }

    /**
     Descendants: breadth first over the child lists.  Every id below parent is listed once and nothing else
     is; in a forest the root therefore lists every node.  The order is that of the child lists of the parent and
     of the listed ids, one behind the other, each id at its first place.
     */
    method Descendants(parent: string) returns (out: seq<string>)
      ensures NoDuplicates(out)
      ensures forall x :: x in out <==> x != parent && Below(children, parent, x)
      ensures out == Firsts(Offered(children, [parent] + out), parent)
      ensures IsForest() && parent == "" ==> forall x :: x in out <==> x in byID
    {
      var seen := {parent};
      var frontier := Kids(children, parent);
      out := [];
      StartWalk(children, parent);
      while frontier != []
        invariant Exploring(children, parent, Walk(seen, out, []), frontier)
        decreases Unseen(children, seen), |frontier|
      {
        LevelKeeps(children, parent, Walk(seen, out, []), frontier);
        seen, out, frontier := Level(seen, out, frontier);
        NextLevel(children, parent, Walk(seen, out, frontier));
      }
      ListsEverything(children, parent, seen, out);
      if IsForest() && parent == "" { RootListsAll(byID, children); }
    }

    /** One breadth-first level: visit the frontier, collect the next one. */
    method Level(seen0: set<string>, out0: seq<string>, frontier: seq<string>)
      returns (seen: set<string>, out: seq<string>, next: seq<string>)
      ensures Walk(seen, out, next) == VisitAll(children, Walk(seen0, out0, []), frontier)
    {
      seen, out, next := seen0, out0, [];
      var i := 0;
      while i < |frontier|
        invariant 0 <= i <= |frontier|
        invariant VisitAll(children, Walk(seen, out, next), frontier[i..])
               == VisitAll(children, Walk(seen0, out0, []), frontier)
      {
        var id := frontier[i];
        if id !in seen {
          seen := seen + {id};
          out := out + [id];
          next := next + Kids(children, id);
        }
        i := i + 1;
      }
    }

    /** PathOf, for any map of nodes: a broken or cyclic chain has no path. */
    method PathOf(id: string) returns (path: string)
      ensures path == PathTo(byID, id)
    {
      var parts: seq<string> := [];
      var seen: set<string> := {};
      var cur := id;
      ghost var chain: seq<string> := [];
      while cur != ""
        invariant Climbing(byID, chain, seen, parts, id, cur)
        decreases |byID.Keys - seen|
      {
        if cur in seen || cur !in byID {
          ChainBroken(byID, chain, id, cur);
          return "";
        }
        ClimbStep(byID, chain, seen, parts, id, cur);
        seen := seen + {cur};
        chain := chain + [cur];
        parts := parts + [byID[cur].name];
        cur := byID[cur].parent;
      }
      ChainIsPath(byID, chain, id);
      parts := Reverse(parts);
      path := Join(parts);
    }

    /** Resolve. */
    method Resolve(fold: string -> string, path: string) returns (r: Lookup)
      ensures r == Resolved(byID, children, fold, path)
    {
      var trimmed := TrimRight(TrimLeft(Slashes(path)));
      if trimmed == "" { return Root; }
      var segments := Split(trimmed);
      var parent := "";
      var i := 0;
      while i < |segments|
        invariant 0 <= i <= |segments|
        invariant Locate(byID, children, fold, segments[..i]) == Some(parent)
      {
        assert segments[..i + 1][..i] == segments[..i];
        if !Ignored(segments[i]) {
          var child := FindChild(fold, parent, segments[i]);
          if child == None {
            Dead(segments, i + 1, fold);
            return NotFound;
          }
          parent := child.value;
        }
        i := i + 1;
      }
      assert segments[..i] == segments;
      r := if parent == "" then NotFound else Found(parent);
    }

    method FindChild(fold: string -> string, parent: string, segment: string) returns (child: Option<string>)
      ensures child == FirstNamed(byID, fold, Kids(children, parent), segment)
    {
      var ids := Kids(children, parent);
      var j := 0;
      while j < |ids|
        invariant 0 <= j <= |ids|
        invariant FirstNamed(byID, fold, ids[j..], segment) == FirstNamed(byID, fold, ids, segment)
      {
        if ids[j] in byID && fold(byID[ids[j]].name) == fold(segment) && !byID[ids[j]].trashed { return Some(ids[j]); }
        j := j + 1;
      }
      child := None;
    }

    /** A lookup that failed on a prefix fails on the whole path. */
    lemma {:induction false} Dead(segments: seq<string>, i: nat, fold: string -> string)
      requires i <= |segments| && Locate(byID, children, fold, segments[..i]) == None
      ensures Locate(byID, children, fold, segments) == None
      decreases |segments| - i
    {
      if i < |segments| {
        assert segments[..i + 1][..i] == segments[..i];
        Dead(segments, i + 1, fold);
      } else {
        assert segments[..i] == segments;
      }
    }

    /** The inner loop of detachCycles: follow parents until the root, a settled node or a repetition. */
    method Follow(id: string, settled: set<string>) returns (cyclic: bool, chain: seq<string>)
      requires id in byID && forall x :: x in settled ==> Rooted(byID, x)
      ensures cyclic ==> !Rooted(byID, id)
      ensures !cyclic ==> Rooted(byID, id) && forall x :: x in chain ==> Rooted(byID, x)
    {
      var seen: set<string> := {};
      var cur := id;
      chain := [];
      while cur != "" && cur !in settled
        invariant IsChain(byID, chain, id, cur)
        invariant forall x :: x in seen <==> x in chain
        decreases |byID.Keys - seen|
      {
        if cur in seen {
          ChainCyclic(byID, chain, id, cur);
          return true, chain;
        }
        if cur !in byID {
          assert RootedIn(byID, cur, 0);
          break;
        }
        assert cur in byID.Keys - seen;
        Smaller(byID.Keys - (seen + {cur}), byID.Keys - seen);
        seen := seen + {cur};
        assert (chain + [cur])[..|chain|] == chain;
        chain := chain + [cur];
        cur := byID[cur].parent;
      }
      assert cur == "" ==> RootedIn(byID, cur, 0);
      ChainRooted(byID, chain, id, cur);
      cyclic := false;
    }

    method Reroot(id: string)
      requires id in byID
      modifies this
      ensures byID == Rerooted(old(byID), id)
      ensures children == if old(byID)[id].parent == "" then old(children) else Moved(old(byID), old(children), id)
      ensures orphans == if old(byID)[id].parent == "" then old(orphans) else old(orphans) + [id]
    {
      var parent := byID[id].parent;
      if parent == "" { return; }
      var siblings := Kids(children, parent);
      var i := 0;
      while i < |siblings| && siblings[i] != id
        invariant 0 <= i <= |siblings| && forall j :: 0 <= j < i ==> siblings[j] != id
      {
        i := i + 1;
      }
      if i < |siblings| {
        WithoutAt(siblings, id, i);
        children := children[parent := siblings[..i] + siblings[i + 1..]];
      }
      byID := byID[id := byID[id].(parent := "")];
      children := children["" := Kids(children, "") + [id]];
      orphans := orphans + [id];
    }

    /** detachCycles, for every order in which the nodes may be visited. */
    method DetachCycles()
      modifies this
      ensures OnlyCyclesMoved(old(byID), byID)
      ensures forall id :: id in byID ==> Rooted(byID, id)
      ensures Known(old(byID), old(children)) ==> Known(byID, children)
      ensures "" !in old(byID) && Matches(old(byID), old(children)) ==> Matches(byID, children)
      ensures forall id :: id in orphans <==> id in old(orphans) || (id in byID && byID[id] != old(byID)[id])
    {
      var todo := byID.Keys;
      var settled: set<string> := {};
      while todo != {}
        invariant todo <= byID.Keys
        invariant Detached(old(byID), old(children), old(orphans), byID, children, orphans)
        invariant forall id :: id in settled ==> Rooted(byID, id)
        invariant forall id :: id in byID && id !in todo ==> Rooted(byID, id)
        decreases |todo|
      {
        var id :| id in todo;
        todo := todo - {id};
        if id !in settled {
          var cyclic, chain := Follow(id, settled);
          if cyclic {
            DetachNext(old(byID), old(children), old(orphans), byID, children, orphans, id);
            Reroot(id);
          } else {
            settled := settled + (set x | x in chain);
          }
        }
      }
    }
  }

  method Reverse(s: seq<string>) returns (r: seq<string>)
    ensures r == Reversed(s)
  {
    r := s;
    ghost var t := Reversed(s);
    var i, j := 0, |s| - 1;
    while i < j
      invariant 0 <= i && i + j == |s| - 1 && |r| == |s| && i <= j + 2
      invariant forall k :: 0 <= k < i ==> r[k] == t[k]
      invariant forall k :: i <= k <= j ==> r[k] == s[k]
      invariant forall k :: j < k < |s| && 0 <= k ==> r[k] == t[k]
    {
      assert s[i] == t[j] && s[j] == t[i];
      r := r[i := r[j]][j := r[i]];
      i, j := i + 1, j - 1;
    }
    if i == j { assert t[i] == s[i]; }
    assert r == t;
  }

  lemma {:induction false} WithoutMembers(s: seq<string>, id: string)
    ensures forall x :: x in Without(s, id) ==> x in s
  {
    if s != [] && s[0] != id { WithoutMembers(s[1..], id); }
  }

  lemma {:induction false} MoveKnown(nodes: Nodes, children: Children, id: string)
    requires id in nodes && Known(nodes, children)
    ensures Known(Rerooted(nodes, id), Moved(nodes, children, id))
  {
    var p := nodes[id].parent;
    WithoutMembers(Kids(children, p), id);
    var cut := Cut(children, p, id);
    assert Known(nodes, cut) by {
      forall q, x | x in Kids(cut, q) ensures x in nodes { assert x in Kids(children, q); }
    }
    forall q, x | x in Kids(Moved(nodes, children, id), q) ensures x in nodes {
      assert x == id || x in Kids(cut, q);
    }
  }

  lemma {:induction false} Smaller(a: set<string>, b: set<string>)
    requires a < b
    ensures |a| < |b|
  {
    var x :| x in b && x !in a;
    SubsetSize(a, b - {x});
  }

  lemma {:induction false} SubsetSize(a: set<string>, b: set<string>)
    requires a <= b
    ensures |a| <= |b|
  {
    if a != {} {
      var x :| x in a;
      SubsetSize(a - {x}, b - {x});
    }
  }

  lemma {:induction false} NotRootedParent(nodes: Nodes, id: string)
    requires id in nodes && !Rooted(nodes, id)
    ensures id != "" && nodes[id].parent != "" && nodes[id].parent in nodes
  {
    assert !RootedIn(nodes, id, 0) && !RootedIn(nodes, id, 1);
  }
}
