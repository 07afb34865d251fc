/** Slash-separated paths over a forest of named nodes (the meaning of Resolve and PathOf in internal/tree/tree.go). */
module Paths {
  import opened Forest
  import opened Options

  // ---------------------------------------------------------------- strings

  function Slashes(s: string): string {
    if s == [] then [] else [if s[0] == '\\' then '/' else s[0]] + Slashes(s[1..])
  }

  function TrimLeft(s: string): string {
    if s != [] && s[0] == '/' then TrimLeft(s[1..]) else s
  }

  function TrimRight(s: string): string {
    if s != [] && s[|s| - 1] == '/' then TrimRight(s[..|s| - 1]) else s
  }

  function Split(s: string): (parts: seq<string>)
    ensures parts != []
  {
    if s == [] then [[]]
    else
      var rest := Split(s[1..]);
      if s[0] == '/' then [[]] + rest else [[s[0]] + rest[0]] + rest[1..]
  }

  function Join(parts: seq<string>): string {
    if parts == [] then []
    else if |parts| == 1 then parts[0]
    else parts[0] + "/" + Join(parts[1..])
  }

  function Segments(path: string): seq<string> { Split(TrimRight(TrimLeft(Slashes(path)))) }

  predicate Ignored(segment: string) { segment == "" || segment == "." }

  /** A name that survives being a path segment. */
  predicate Plain(name: string) { !Ignored(name) && '/' !in name && '\\' !in name }

  lemma {:induction false} SplitPrefix(name: string, s: string)
    requires '/' !in name
    ensures Split(name + s) == [name + Split(s)[0]] + Split(s)[1..]
  {
    if name == [] {
      assert name + s == s && name + Split(s)[0] == Split(s)[0];
    } else {
      assert (name + s)[1..] == name[1..] + s;
      SplitPrefix(name[1..], s);
      assert [name[0]] + (name[1..] + Split(s)[0]) == name + Split(s)[0];
    }
  }

  lemma {:induction false} SplitJoin(parts: seq<string>)
    requires parts != [] && forall p :: p in parts ==> '/' !in p
    ensures Split(Join(parts)) == parts
  {
    if |parts| == 1 {
      SplitPrefix(parts[0], []);
      assert parts[0] + [] == parts[0];
    } else {
      SplitJoin(parts[1..]);
      var tail := "/" + Join(parts[1..]);
      assert tail[1..] == Join(parts[1..]);
      SplitPrefix(parts[0], tail);
      assert parts[0] + tail == parts[0] + "/" + Join(parts[1..]);
      assert Split(tail) == [[]] + parts[1..];
      assert parts[0] + Split(tail)[0] == parts[0] && Split(tail)[1..] == parts[1..];
    }
  }

  lemma {:induction false} SlashesKeeps(s: string)
    requires '\\' !in s
    ensures Slashes(s) == s
  {
    if s != [] { SlashesKeeps(s[1..]); }
  }

  lemma {:induction false} JoinChars(parts: seq<string>)
    requires parts != [] && forall p :: p in parts ==> Plain(p)
    ensures var s := Join(parts); s != [] && '\\' !in s && s[0] != '/' && s[|s| - 1] != '/'
  {
    assert Plain(parts[0]) && parts[0][0] in parts[0] && parts[0][|parts[0]| - 1] in parts[0];
    if |parts| > 1 { JoinChars(parts[1..]); }
  }

  lemma {:induction false} SegmentsOfJoin(parts: seq<string>)
    requires parts != [] && forall p :: p in parts ==> Plain(p)
    ensures Segments(Join(parts)) == parts && TrimRight(TrimLeft(Slashes(Join(parts)))) != ""
  {
    JoinChars(parts);
    SlashesKeeps(Join(parts));
    SplitJoin(parts);
  }

  lemma {:induction false} SlashesTwice(s: string)
    ensures Slashes(Slashes(s)) == Slashes(s)
  {
    if s != [] { SlashesTwice(s[1..]); }
  }

  lemma {:induction false} SlashesEnd(s: string, c: char)
    ensures Slashes(s + [c]) == Slashes(s) + [if c == '\\' then '/' else c]
  {
    if s != [] {
      assert (s + [c])[1..] == s[1..] + [c];
      SlashesEnd(s[1..], c);
    }
  }

  lemma {:induction false} TrimEnd(s: string)
    ensures TrimRight(TrimLeft(s + "/")) == TrimRight(TrimLeft(s))
  {
    if s != [] && s[0] == '/' {
      assert (s + "/")[1..] == s[1..] + "/";
      TrimEnd(s[1..]);
    } else if s == [] {
      assert (s + "/")[1..] == [];
    } else {
      assert (s + "/")[..|s|] == s;
    }
  }

  /** Slashes of either direction are the same, and those around the path do not count. */
  lemma {:induction false} SpellingsAgree(path: string)
    ensures Segments(Slashes(path)) == Segments(path)
    ensures Segments("/" + path) == Segments(path) == Segments("\\" + path)
    ensures Segments(path + "/") == Segments(path) == Segments(path + "\\")
  {
    SlashesTwice(path);
    assert ("/" + path)[1..] == path && ("\\" + path)[1..] == path;
    assert (['/'] + Slashes(path))[1..] == Slashes(path);
    SlashesEnd(path, '/');
    SlashesEnd(path, '\\');
    TrimEnd(Slashes(path));
  }

  // ---------------------------------------------------------------- paths of nodes

  /** Own parents lead from id to the root through known nodes only. */
  ghost predicate CompleteIn(nodes: Nodes, id: string, k: nat)
    decreases k
  {
    id == "" || (k > 0 && id in nodes && CompleteIn(nodes, nodes[id].parent, k - 1))
  }

  ghost predicate Complete(nodes: Nodes, id: string) { exists k: nat :: CompleteIn(nodes, id, k) }

  ghost function Names(nodes: Nodes, id: string, k: nat): seq<string>
    requires CompleteIn(nodes, id, k)
    decreases k
  {
    if id == "" then [] else Names(nodes, nodes[id].parent, k - 1) + [nodes[id].name]
  }

  lemma {:induction false} NamesUnique(nodes: Nodes, id: string, j: nat, k: nat)
    requires CompleteIn(nodes, id, j) && CompleteIn(nodes, id, k)
    ensures Names(nodes, id, j) == Names(nodes, id, k)
    decreases k
  {
    if id != "" { NamesUnique(nodes, nodes[id].parent, j - 1, k - 1); }
  }

  /** What PathOf answers: the names from the root down, or nothing when the chain breaks or turns back. */
  ghost function PathTo(nodes: Nodes, id: string): string {
    if Complete(nodes, id) then
      var k: nat :| CompleteIn(nodes, id, k);
      Join(Names(nodes, id, k))
    else ""
  }

  // ---------------------------------------------------------------- lookup

  predicate Live(nodes: Nodes, id: string) { id in nodes && !nodes[id].trashed }

  /** The first live child whose name folds like the segment. */
  function FirstNamed(nodes: Nodes, fold: string -> string, ids: seq<string>, segment: string): Option<string> {
    if ids == [] then None
    else if Live(nodes, ids[0]) && fold(nodes[ids[0]].name) == fold(segment) then Some(ids[0])
    else FirstNamed(nodes, fold, ids[1..], segment)
  }

  /** The node the segments lead to from the root, which is the empty id. */
  function Locate(nodes: Nodes, children: Children, fold: string -> string, segments: seq<string>): Option<string> {
    if segments == [] then Some("")
    else
      var n := |segments| - 1;
      match Locate(nodes, children, fold, segments[..n])
      case None => None
      case Some(parent) =>
        if Ignored(segments[n]) then Some(parent)
        else FirstNamed(nodes, fold, Kids(children, parent), segments[n])
  }

  datatype Lookup = Root | Found(id: string) | NotFound

  function Resolved(nodes: Nodes, children: Children, fold: string -> string, path: string): Lookup {
    if TrimRight(TrimLeft(Slashes(path))) == "" then Root
    else match Locate(nodes, children, fold, Segments(path))
         case None => NotFound
         case Some(id) => if id == "" then NotFound else Found(id)
  }

  /** Upwards from id, the segments are the folded names of live nodes, and they end at the root. */
  ghost predicate Leads(nodes: Nodes, fold: string -> string, id: string, segments: seq<string>)
    decreases |segments|
  {
    if segments == [] then id == ""
    else
      var n := |segments| - 1;
      if Ignored(segments[n]) then Leads(nodes, fold, id, segments[..n])
      else
        && Live(nodes, id) && fold(nodes[id].name) == fold(segments[n])
        && Leads(nodes, fold, Effective(nodes, id), segments[..n])
  }

  /** No other live child of its folder has a name that folds like that of id. */
  ghost predicate OnlyNamed(nodes: Nodes, fold: string -> string, id: string)
    requires id in nodes
  {
    forall x | Live(nodes, x) && Effective(nodes, x) == Effective(nodes, id) ::
      fold(nodes[x].name) == fold(nodes[id].name) ==> x == id
  }

  /** That holds of id and of every node above it that the segments name. */
  ghost predicate UniqueAlong(nodes: Nodes, fold: string -> string, id: string, segments: seq<string>)
    decreases |segments|
  {
    segments == [] ||
    var n := |segments| - 1;
    if Ignored(segments[n]) then UniqueAlong(nodes, fold, id, segments[..n])
    else id in nodes && OnlyNamed(nodes, fold, id) && UniqueAlong(nodes, fold, Effective(nodes, id), segments[..n])
  }

  /** Of several it is the first in the list. */
  lemma {:induction false} FirstNamedFirst(nodes: Nodes, fold: string -> string, ids: seq<string>, segment: string)
    requires FirstNamed(nodes, fold, ids, segment).Some?
    ensures exists i :: 0 <= i < |ids| && FirstNamed(nodes, fold, ids, segment) == Some(ids[i])
                        && forall j :: 0 <= j < i ==>
                             Live(nodes, ids[j]) ==> fold(nodes[ids[j]].name) != fold(segment)
  {
    if FirstNamed(nodes, fold, ids, segment) != Some(ids[0]) || !Live(nodes, ids[0])
       || fold(nodes[ids[0]].name) != fold(segment) {
      FirstNamedFirst(nodes, fold, ids[1..], segment);
      var i :| 0 <= i < |ids[1..]| && FirstNamed(nodes, fold, ids[1..], segment) == Some(ids[1..][i])
               && forall j :: 0 <= j < i ==>
                    Live(nodes, ids[1..][j]) ==> fold(nodes[ids[1..][j]].name) != fold(segment);
      assert ids[i + 1] == ids[1..][i];
      assert forall j :: 0 < j < i + 1 ==> ids[j] == ids[1..][j - 1];
    }
  }

  /** Empty and dot segments do not count, wherever they stand. */
  lemma {:induction false} LocateSkips(nodes: Nodes, children: Children, fold: string -> string, front: seq<string>,
                                       back: seq<string>, x: string)
    requires x == "" || x == "."
    ensures Locate(nodes, children, fold, front + [x] + back) == Locate(nodes, children, fold, front + back)
    decreases |back|
  {
    if back == [] {
      assert front + [x] + back == front + [x] && front + back == front && (front + [x])[..|front|] == front;
    } else {
      var n := |back| - 1;
      assert (front + [x] + back)[..|front| + 1 + n] == front + [x] + back[..n];
      assert (front + back)[..|front| + n] == front + back[..n];
      LocateSkips(nodes, children, fold, front, back[..n], x);
    }
  }

  lemma {:induction false} FirstNamedIs(nodes: Nodes, fold: string -> string, ids: seq<string>, segment: string)
    ensures match FirstNamed(nodes, fold, ids, segment)
            case None => forall x :: x in ids && Live(nodes, x) ==> fold(nodes[x].name) != fold(segment)
            case Some(id) => id in ids && Live(nodes, id) && fold(nodes[id].name) == fold(segment)
  {
    if ids != [] { FirstNamedIs(nodes, fold, ids[1..], segment); }
  }

  /** Lookup is sound always, and complete when names are unique along the way. */
  lemma {:induction false} LocateExact(nodes: Nodes, children: Children, fold: string -> string, segments: seq<string>,
                                       id: string)
    requires "" !in nodes && Matches(nodes, children)
    ensures Locate(nodes, children, fold, segments) == Some(id) ==> Leads(nodes, fold, id, segments)
    ensures Leads(nodes, fold, id, segments) && UniqueAlong(nodes, fold, id, segments) ==>
              Locate(nodes, children, fold, segments) == Some(id)
    decreases |segments|
  {
    if segments != [] {
      var n := |segments| - 1;
      var up := Locate(nodes, children, fold, segments[..n]);
      if Ignored(segments[n]) {
        LocateExact(nodes, children, fold, segments[..n], id);
      } else {
        if up.Some? { FirstNamedIs(nodes, fold, Kids(children, up.value), segments[n]); }
        if id in nodes {
          LocateExact(nodes, children, fold, segments[..n], Effective(nodes, id));
          assert id in Kids(children, Effective(nodes, id));
        }
      }
    }
  }

  /** Everything from id up to the root is live and plainly named. */
  ghost predicate PlainChain(nodes: Nodes, id: string, k: nat)
    decreases k
  {
    id == "" || (k > 0 && Live(nodes, id) && Plain(nodes[id].name) && PlainChain(nodes, nodes[id].parent, k - 1))
  }

  /** Neither id nor any node above it has another live sibling whose name folds alike. */
  ghost predicate UniqueChain(nodes: Nodes, fold: string -> string, id: string, k: nat)
    decreases k
  {
    || id == ""
    || (k > 0 && id in nodes && OnlyNamed(nodes, fold, id) && UniqueChain(nodes, fold, nodes[id].parent, k - 1))
  }

  /** The names down to id lead a lookup to id. */
  lemma {:induction false} NamesLocate(nodes: Nodes, children: Children, fold: string -> string, id: string, k: nat)
    requires "" !in nodes && Matches(nodes, children) && PlainChain(nodes, id, k) && UniqueChain(nodes, fold, id, k)
    ensures CompleteIn(nodes, id, k) && Locate(nodes, children, fold, Names(nodes, id, k)) == Some(id)
    ensures forall p :: p in Names(nodes, id, k) ==> Plain(p)
    decreases k
  {
    if id != "" {
      var up := nodes[id].parent;
      NamesLocate(nodes, children, fold, up, k - 1);
      var names := Names(nodes, id, k);
      assert names[..|names| - 1] == Names(nodes, up, k - 1);
      FirstNamedIs(nodes, fold, Kids(children, up), nodes[id].name);
      assert up == Effective(nodes, id) && id in Kids(children, up);
    }
  }

  /** Resolve(PathOf(id)) is id. */
  lemma {:induction false} PathRoundTrip(nodes: Nodes, children: Children, fold: string -> string, id: string, k: nat)
    requires "" !in nodes && Matches(nodes, children)
    requires id in nodes && PlainChain(nodes, id, k) && UniqueChain(nodes, fold, id, k)
    ensures Resolved(nodes, children, fold, PathTo(nodes, id)) == Found(id)
  {
    NamesLocate(nodes, children, fold, id, k);
    var j: nat :| CompleteIn(nodes, id, j) && PathTo(nodes, id) == Join(Names(nodes, id, j));
    NamesUnique(nodes, id, j, k);
    SegmentsOfJoin(Names(nodes, id, k));
  }

  /** Whatever Resolve finds is named by the path, and a path that names a node finds it. */
  lemma {:induction false} ResolvedExact(nodes: Nodes, children: Children, fold: string -> string, path: string,
                                         id: string)
    requires "" !in nodes && Matches(nodes, children)
    ensures Resolved(nodes, children, fold, path) == Found(id) ==> id != "" && Leads(nodes, fold, id, Segments(path))
    ensures UniqueAlong(nodes, fold, id, Segments(path)) ==>
              (Resolved(nodes, children, fold, path) == Found(id)
               <==> id != "" && Leads(nodes, fold, id, Segments(path)))
  {
    LocateExact(nodes, children, fold, Segments(path), id);
  }
}
