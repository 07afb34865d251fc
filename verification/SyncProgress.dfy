/** What the actors of sync mode achieve when their statements run: the effect of whole scripts. */
module SyncProgress {
  import opened Options
  import opened CacheRow
  import opened SyncState
  import opened SyncActors
  import opened SyncSafety
  import Queue

  // ---------------------------------------------------------------- scripts

  /** What row, queue and node statements act on. */
  datatype Core = Core(row: Option<Row>, queue: Queue.Table, next: nat, nodes: map<nat, Node>)

  function CoreOf(s: Sys): Core { Core(s.row, s.queue, s.nextEntry, s.nodes) }

  function CoreAfter(c: Core, readOnly: bool, op: Op): Core {
    var (queue, next) := QueueAfter(c.queue, c.next, readOnly, op, 0);
    Core(RowAfter(c.row, op, 0), queue, next, NodesAfter(c.nodes, op, 0))
  }

  function CoreFold(c: Core, readOnly: bool, ops: seq<Op>): Core
    decreases |ops|
  {
    if ops == [] then c else CoreFold(CoreAfter(c, readOnly, ops[0]), readOnly, ops[1..])
  }

  /** What they leave alone: the file, the server and what was put aside. */
  datatype Aside = Aside(disk: Option<LocalFile>, held: set<Content>, trash: set<Content>, copies: set<Content>,
                         readOnly: bool)

  datatype View = View(aside: Aside, core: Core, threads: map<nat, Thread>)

  function AsideOf(s: Sys): Aside { Aside(s.disk, s.held, s.trash, s.copies, s.readOnly) }

  function ViewOf(s: Sys): View { View(AsideOf(s), CoreOf(s), s.threads) }

  /** n statements of one thread, one after the other. */
  function ExecMany(s: Sys, t: nat, n: nat): Sys
    decreases n
  {
    if n == 0 then s else ExecMany(ExecThread(s, t), t, n - 1)
  }

  /** Some events lead from one state to the other. */
  ghost predicate Reaches(h: Digest, s: Sys, s': Sys) { exists events :: Run(h, s, events) == s' }

  lemma {:induction false} ReachesItself(h: Digest, s: Sys)
    ensures Reaches(h, s, s)
  {
    assert Run(h, s, []) == s;
  }

  lemma {:induction false} OneMore(h: Digest, s: Sys, s': Sys, e: Event)
    requires Reaches(h, s, s')
    ensures Reaches(h, s, Perform(h, s', e))
  {
    var events :| Run(h, s, events) == s';
    assert (events + [e])[..|events|] == events;
    assert Run(h, s, events + [e]) == Perform(h, s', e);
  }

  lemma {:induction false} ManyMore(h: Digest, s: Sys, s': Sys, t: nat, n: nat)
    requires Reaches(h, s, s')
    ensures Reaches(h, s, ExecMany(s', t, n))
    decreases n
  {
    if n > 0 {
      OneMore(h, s, s', Exec(t));
      ManyMore(h, s, ExecThread(s', t), t, n - 1);
    }
  }

  lemma {:induction false} PlainEffect(s: Sys, op: Op)
    requires Plain(op)
    ensures ViewOf(RunOp(s, op, 0).0) == View(AsideOf(s), CoreAfter(CoreOf(s), s.readOnly, op), s.threads)
  {
    var s1 := RunRowOp(s, op, 0);
    RowOpFrame(s, op, 0);
    QueueOpFrame(s1, op, 0);
    NodeOpFrame(RunQueueOp(s1, op, 0), op, 0);
  }

  lemma {:induction false} StatementRuns(s: Sys, t: nat, op: Op, rest: seq<Op>, after: After)
    requires Plain(op) && t in s.threads && s.threads[t] == Script([op] + rest, 0, after)
    ensures ViewOf(ExecThread(s, t))
         == View(AsideOf(s), CoreAfter(CoreOf(s), s.readOnly, op), s.threads[t := Script(rest, 0, after)])
  {
    assert ([op] + rest)[1..] == rest && ([op] + rest)[0] == op;
    PlainEffect(s, op);
  }

  lemma {:induction false} UpdatedTwice(threads: map<nat, Thread>, t: nat, a: Thread, b: Thread)
    ensures threads[t := a][t := b] == threads[t := b]
  {
  }

  /** A script of row, queue and node statements, run to its end, composes their effects and touches nothing else. */
  lemma {:induction false} ScriptRuns(s: Sys, t: nat, ops: seq<Op>, after: After)
    requires (forall op :: op in ops ==> Plain(op)) && t in s.threads && s.threads[t] == Script(ops, 0, after)
    ensures ViewOf(ExecMany(s, t, |ops|))
         == View(AsideOf(s), CoreFold(CoreOf(s), s.readOnly, ops), s.threads[t := Script([], 0, after)])
    decreases |ops|
  {
    if ops != [] {
      assert ops == [ops[0]] + ops[1..];
      StatementRuns(s, t, ops[0], ops[1..], after);
      var s1 := ExecThread(s, t);
      assert ViewOf(s1).threads[t] == Script(ops[1..], 0, after);
      ScriptRuns(s1, t, ops[1..], after);
      UpdatedTwice(s.threads, t, Script(ops[1..], 0, after), Script([], 0, after));
    } else {
      assert s.threads == s.threads[t := Script([], 0, after)];
    }
  }

  lemma {:induction false} ScriptLeaves(s: Sys, t: nat, ops: seq<Op>, after: After, s': Sys)
    requires (forall op :: op in ops ==> Plain(op)) && t in s.threads && s.threads[t] == Script(ops, 0, after)
    requires s' == ExecMany(s, t, |ops|)
    ensures AsideOf(s') == AsideOf(s) && CoreOf(s') == CoreFold(CoreOf(s), s.readOnly, ops)
    ensures s'.threads == s.threads[t := Script([], 0, after)]
  {
    ScriptRuns(s, t, ops, after);
    assert ViewOf(s').aside == AsideOf(s') && ViewOf(s').core == CoreOf(s');
  }

  lemma {:induction false} FoldCons(c: Core, readOnly: bool, op: Op, rest: seq<Op>)
    ensures CoreFold(c, readOnly, [op] + rest) == CoreFold(CoreAfter(c, readOnly, op), readOnly, rest)
  {
    assert ([op] + rest)[1..] == rest;
  }

  /** An update of the row there is. */
  lemma {:induction false} RowStep(c: Core, readOnly: bool, op: Op, r: Row)
    requires c.row == Some(r) && UpdateTarget(op) == Some(Id(r.id))
    ensures CoreAfter(c, readOnly, op) == c.(row := Some(Updated(op, r)))
  {
  }

  lemma {:induction false} FoldOne(c: Core, readOnly: bool, a: Op)
    ensures CoreFold(c, readOnly, [a]) == CoreAfter(c, readOnly, a)
  {
    assert [a][1..] == [];
  }

  lemma {:induction false} FoldTwo(c: Core, readOnly: bool, a: Op, b: Op)
    ensures CoreFold(c, readOnly, [a, b]) == CoreAfter(CoreAfter(c, readOnly, a), readOnly, b)
  {
    assert [a, b] == [a] + [b];
    FoldCons(c, readOnly, a, [b]);
    FoldOne(CoreAfter(c, readOnly, a), readOnly, b);
  }

  lemma {:induction false} FoldConcat(c: Core, readOnly: bool, xs: seq<Op>, ys: seq<Op>)
    ensures CoreFold(c, readOnly, xs + ys) == CoreFold(CoreFold(c, readOnly, xs), readOnly, ys)
    decreases |xs|
  {
    if xs == [] {
      assert xs + ys == ys;
    } else {
      assert (xs + ys)[1..] == xs[1..] + ys && (xs + ys)[0] == xs[0];
      FoldConcat(CoreAfter(c, readOnly, xs[0]), readOnly, xs[1..], ys);
    }
  }

  // ---------------------------------------------------------------- downloads

  /** The row of the node, clean; the file and the version as the download found them. */
  ghost predicate Undisturbed(h: Digest, s: Sys, t: nat) {
    && t in s.threads && s.threads[t].Fetched?
    && var d := s.threads[t];
       && d.node in s.nodes && s.nodes[d.node].etag == d.etag && SameState(h, d.before, s.disk)
       && s.row.Some? && s.row.value.id == s.nodes[d.node].id && !s.row.value.dirty
  }

  /** The row after the commit statements. */
  function Committed(r: Row, size: nat, hash: string, etag: string): Row {
    r.(cached := true, contentHash := "", lastAccess := 0, size := size, localHash := hash, downloadBaseline := hash,
       localEtag := etag, status := Synced)
  }

  lemma {:induction false} CommitFold(h: Digest, c: Core, readOnly: bool, r: Row, body: Content, etag: string)
    requires c.row == Some(r)
    ensures CoreFold(c, readOnly, CommitOps(h, r.id, body, etag, false))
         == c.(row := Some(Committed(r, |body|, h(body), etag)))
  {
    var id := Id(r.id);
    var first := [CachedRow(id, 0), SizeRow(id, |body|)];
    var second := [LocalContentFor(id, h(body), etag), StatusRow(id, Synced)];
    assert CommitOps(h, r.id, body, etag, false) == first + second;
    FoldConcat(c, readOnly, first, second);
    FoldTwo(c, readOnly, first[0], first[1]);
    FoldTwo(CoreFold(c, readOnly, first), readOnly, second[0], second[1]);
  }

  /** An undisturbed publication and the commit of its node. */
  lemma {:induction false} PublicationCommits(h: Digest, s: Sys, t: nat, ident: nat, mtime: int)
    requires Undisturbed(h, s, t)
    ensures var d := s.threads[t];
            var s' := CommitThread(h, PublishThread(h, s, t, true, LocalFile([], ident, mtime)), t);
            && s'.disk == Some(LocalFile(d.body, ident, mtime)) && s'.readOnly == s.readOnly
            && CoreOf(s') == CoreOf(s).(nodes := s.nodes[d.node := s.nodes[d.node].(cached := true, size := |d.body|)])
            && t in s'.threads
            && s'.threads[t] == Script(CommitOps(h, s.row.value.id, d.body, d.etag, false), 0, Finish)
  {
  }

  /** The state after the whole download. */
  function Downloaded(h: Digest, s: Sys, t: nat, ident: nat, mtime: int): Sys
    requires t in s.threads && s.threads[t].Fetched?
  {
    var published := PublishThread(h, s, t, true, LocalFile([], ident, mtime));
    if t in published.threads && published.threads[t].Published?
    then ExecMany(CommitThread(h, published, t), t, 4) else published
  }

  lemma {:induction false} DownloadIsRun(h: Digest, s: Sys, s': Sys, t: nat, ident: nat, mtime: int)
    requires Reaches(h, s, s') && t in s'.threads && s'.threads[t].Fetched?
    ensures Reaches(h, s, Downloaded(h, s', t, ident, mtime))
  {
    OneMore(h, s, s', Publish(t, true, ident, mtime));
    var published := PublishThread(h, s', t, true, LocalFile([], ident, mtime));
    if t in published.threads && published.threads[t].Published? {
      OneMore(h, s, published, CommitNode(t));
      ManyMore(h, s, CommitThread(h, published, t), t, 4);
    }
  }

  /**
   A download nobody disturbs puts the fetched bytes in the file and their digest and version in the row, which ends
   cached, clean and synced, and marks its node cached.
   */
  lemma {:induction false} DownloadCompletes(h: Digest, s: Sys, t: nat, ident: nat, mtime: int)
    requires Undisturbed(h, s, t)
    ensures var d := s.threads[t];
            var s' := Downloaded(h, s, t, ident, mtime);
            && s'.disk == Some(LocalFile(d.body, ident, mtime))
            && s'.row == Some(Committed(s.row.value, |d.body|, h(d.body), d.etag))
            && s'.nodes == s.nodes[d.node := s.nodes[d.node].(cached := true, size := |d.body|)]
            && s'.queue == s.queue
            && var r := s'.row.value;
               && r.id == s.row.value.id && r.cached && !r.dirty && r.status == Synced && r.size == |d.body|
               && r.localHash == h(d.body) && r.localEtag == d.etag && r.etag == s.row.value.etag
  {
    var d := s.threads[t];
    PublicationCommits(h, s, t, ident, mtime);
    var committed := CommitThread(h, PublishThread(h, s, t, true, LocalFile([], ident, mtime)), t);
    ScriptRuns(committed, t, CommitOps(h, s.row.value.id, d.body, d.etag, false), Finish);
    CommitFold(h, CoreOf(committed), s.readOnly, s.row.value, d.body, d.etag);
    var done := ExecMany(committed, t, 4);
    assert AsideOf(done) == AsideOf(committed) && CoreOf(done).row == done.row;
  }

  /**
   A download whose version was replaced between publication and commit: the file has the fetched bytes and their digest
   is the baseline, but row and node are not cached, so that the new version will be fetched.
   */
  lemma {:induction false} OvertakenCommit(h: Digest, s: Sys, t: nat, r: Row)
    requires t in s.threads && s.threads[t].Published? && s.threads[t].node in s.nodes
    requires s.nodes[s.threads[t].node].etag != s.threads[t].etag && h(s.threads[t].body) != ""
    requires s.row == Some(r) && r.id == s.nodes[s.threads[t].node].id
    ensures var d := s.threads[t];
            var s' := ExecMany(CommitThread(h, s, t), t, 5);
            && s'.disk == s.disk && s'.queue == s.queue && s'.row.Some?
            && s'.nodes == s.nodes[d.node := s.nodes[d.node].(cached := false, size := |d.body|)]
            && var r' := s'.row.value;
               && r'.id == r.id && !r'.cached && r'.dirty == r.dirty && r'.status == Synced && r'.localHash == ""
               && Baseline(r') == h(d.body) && r'.localEtag == d.etag
  {
    var d := s.threads[t];
    var n := s.nodes[d.node];
    var ops := CommitOps(h, n.id, d.body, d.etag, true);
    var committed := CommitThread(h, s, t);
    assert committed.threads[t] == Script(ops, 0, Finish);
    ScriptRuns(committed, t, ops, Finish);
    OvertakenFold(h, CoreOf(committed), s.readOnly, r, d.body, d.etag);
    var done := ExecMany(committed, t, 5);
    assert AsideOf(done) == AsideOf(committed) && CoreOf(done) == CoreFold(CoreOf(committed), s.readOnly, ops);
  }

  lemma {:induction false} OvertakenFold(h: Digest, c: Core, readOnly: bool, r: Row, body: Content, etag: string)
    requires c.row == Some(r)
    ensures CoreFold(c, readOnly, CommitOps(h, r.id, body, etag, true))
         == c.(row := Some(InvalidateCache(Committed(r, |body|, h(body), etag))))
  {
    var first := CommitOps(h, r.id, body, etag, false);
    assert CommitOps(h, r.id, body, etag, true) == first + [InvalidateRow(Id(r.id))];
    FoldConcat(c, readOnly, first, [InvalidateRow(Id(r.id))]);
    CommitFold(h, c, readOnly, r, body, etag);
    var c1 := c.(row := Some(Committed(r, |body|, h(body), etag)));
    FoldOne(c1, readOnly, InvalidateRow(Id(r.id)));
    RowStep(c1, readOnly, InvalidateRow(Id(r.id)), Committed(r, |body|, h(body), etag));
  }

  /** A fetch that fails leaves file and queue; the row is failed exactly when the failure is permanent. */
  lemma {:induction false} FetchFailureEnds(s: Sys, t: nat, permanent: bool, r: Row)
    requires t in s.threads && s.threads[t].Fetching? && s.threads[t].node in s.nodes
    requires s.row == Some(r) && r.id == s.nodes[s.threads[t].node].id
    ensures var s' := ExecMany(FetchFailed(s, t, permanent), t, if permanent then 1 else 0);
            && s'.disk == s.disk && s'.queue == s.queue && s'.nodes == s.nodes
            && t in s'.threads && s'.threads[t] == Script([], 0, Finish)
            && s'.row == Some(if permanent then r.(status := CacheRow.Failed) else r)
  {
    if permanent {
      var failed := FetchFailed(s, t, permanent);
      var op := StatusRow(Id(r.id), CacheRow.Failed);
      ScriptRuns(failed, t, [op], Finish);
      FoldOne(CoreOf(failed), s.readOnly, op);
      RowStep(CoreOf(failed), s.readOnly, op, r);
      var done := ExecMany(failed, t, 1);
      assert AsideOf(done) == AsideOf(failed) && CoreOf(done) == CoreFold(CoreOf(failed), s.readOnly, [op]);
    }
  }

  /** A plan that at most records that the copy is current. */
  ghost predicate OnlyMarks(p: Plan) {
    p.Statements? && forall op :: op in p.ops ==>
      || (op.StatusRow? && op.status == Synced)
      || (op.UpdateNode? && op.patch == Patch(None, None, Some(true), None, None))
  }

  /** After it, any walk, the initial one and the later ones, finds nothing left to fetch. */
  lemma {:induction false} NothingLeftToFetch(h: Digest, s: Sys, t: nat, ident: nat, mtime: int, initial: bool,
                                              due: bool,
                                              valid: bool)
    requires Undisturbed(h, s, t) && s.threads[t].etag != "" && h(s.threads[t].body) != ""
    ensures var d := s.threads[t];
            var s' := Downloaded(h, s, t, ident, mtime);
            && d.node in s'.nodes
            && OnlyMarks(PlanWalk(h, Seen(s'.row, s'.disk, s'.nodes[d.node]), d.node, initial, due, valid))
  {
    DownloadCompletes(h, s, t, ident, mtime);
    var d := s.threads[t];
    CurrentCopy(h, s.row.value, s.nodes[d.node], d.body, d.etag, LocalFile(d.body, ident, mtime), d.node, initial,
                due, valid);
  }

  lemma {:induction false} CurrentCopy(h: Digest, r: Row, n: Node, body: Content, etag: string, f: LocalFile, node: nat,
                                       initial: bool, due: bool, valid: bool)
    requires f.content == body && n.etag == etag != "" && h(body) != "" && !r.dirty
    ensures OnlyMarks(PlanWalk(h, Seen(Some(Committed(r, |body|, h(body), etag)), Some(f),
                                       n.(cached := true, size := |body|)),
                               node, initial, due, valid))
  {
  }

  // ---------------------------------------------------------------- local edits and listings

  /**
   An edit the watcher ingests is queued whatever the row was, a conflict included: the row ends dirty and pending with
   its baseline kept, and exactly one upload waits for it.
   */
  lemma {:induction false} IngestQueuesUpload(h: Digest, s: Sys, seen: Seen)
    requires seen.disk.Some? && !s.readOnly && forall k :: k in s.queue ==> k < s.nextEntry
    requires seen.row.Some? ==>
               !(seen.row.value.contentHash == h(seen.disk.value.content) && seen.row.value.status == Synced)
    ensures var ops := PlanIngest(h, seen, true).ops;
            |ops| == 2
            && var upserted := RunOp(s, ops[0], 0);
               var s' := RunOp(upserted.0, ops[1], upserted.1).0;
               && s'.row.Some? && s'.disk == s.disk
               && var r := s'.row.value;
                  && r.dirty && r.status == Pending && r.contentHash == h(seen.disk.value.content)
                  && (s.row.Some? ==> r.id == s.row.value.id && Baseline(r) == Baseline(s.row.value))
                  && s.nextEntry in s'.queue
                  && s'.queue[s.nextEntry] == Queue.Entry(r.id, Queue.Upload, 0, 0, Queue.Waiting)
                  && (forall k | k in s'.queue && s'.queue[k].inode == r.id && s'.queue[k].action == Queue.Upload ::
                        s'.queue[k].state == Queue.Waiting ==> k == s.nextEntry)
  {
    var ops := PlanIngest(h, seen, true).ops;
    var upserted := RunOp(s, ops[0], 0);
    assert ops[1] == Enqueue(Returned, Queue.Upload, 0);
    QueueOpFrame(upserted.0, ops[1], upserted.1);
    NodeOpFrame(RunQueueOp(upserted.0, ops[1], upserted.1), ops[1], upserted.1);
  }

  /** A row after a listing: a pending edit keeps its version and is in conflict with a changed remote file. */
  function PolledRow(r: Row, n: Node, etag: string, changed: bool): Row {
    if (n.dirty || r.dirty) && changed then (if n.status == Conflict then r else r.(status := Conflict))
    else if changed then InvalidateCache(r).(etag := etag)
    else r.(etag := etag)
  }

  function PolledNode(r: Row, n: Node, etag: string, changed: bool, size: Option<nat>): Node {
    if (n.dirty || r.dirty) && changed then n.(status := Conflict)
    else if changed then n.(etag := etag, cached := false, size := Or(size, n.size))
    else n.(etag := etag)
  }

  /** Row and node after a listing: an edit that meets a change is in conflict; otherwise the version is adopted. */
  predicate MergedAs(r: Row, n: Node, r': Row, n': Node, etag: string, changed: bool, size: Option<nat>) {
    if (n.dirty || r.dirty) && changed then
      && r'.etag == r.etag && n'.etag == n.etag && r'.cached == r.cached && n'.cached == n.cached
      && n'.dirty == n.dirty && n'.status == Conflict && (n.status != Conflict ==> r'.status == Conflict)
    else
      && r'.etag == n'.etag == etag && r'.status == r.status && n'.status == n.status && n'.dirty == n.dirty
      && r'.cached == (r.cached && !changed) && n'.cached == (n.cached && !changed)
      && n'.size == (if changed then Or(size, n.size) else n.size)
  }

  lemma {:induction false} MergedView(r: Row, n: Node, etag: string, changed: bool, size: Option<nat>)
    ensures MergedAs(r, n, PolledRow(r, n, etag, changed), PolledNode(r, n, etag, changed, size), etag, changed, size)
  {
  }

  /**
   The poller's merge, run to its end: exactly clean files that changed remotely are invalidated, exactly dirty ones are
   reported in conflict, and neither the baseline nor the pending edit is touched.
   */
  lemma {:induction false} PollMerges(c: Core, readOnly: bool, r: Row, disk: Option<LocalFile>, node: nat, etag: string,
                                      drifted: bool, size: Option<nat>)
    requires c.row == Some(r) && node in c.nodes && c.nodes[node].id == r.id
    ensures var n := c.nodes[node];
            var ops := PlanPollEntry(Seen(c.row, disk, n), node, etag, drifted, size).ops;
            var c' := CoreFold(c, readOnly, ops);
            var changed := RemoteChanged(n, etag, drifted);
            var r' := PolledRow(r, n, etag, changed);
            && c' == c.(row := Some(r'), nodes := c.nodes[node := PolledNode(r, n, etag, changed, size)])
            && r'.dirty == r.dirty && Baseline(r') == Baseline(r)
            && MergedAs(r, n, r', c'.nodes[node], etag, changed, size)
            && (InvalidateRow(Id(r.id)) in ops <==> !n.dirty && !r.dirty && changed)
            && (RemoteVersion(Id(r.id), etag) in ops <==> !((n.dirty || r.dirty) && changed))
  {
    var n := c.nodes[node];
    MergedView(r, n, etag, RemoteChanged(n, etag, drifted), size);
    PollMembers(Seen(c.row, disk, n), node, etag, drifted, size);
    if (n.dirty || r.dirty) && RemoteChanged(n, etag, drifted) {
      if n.status == Conflict {
        assert c.nodes[node := n] == c.nodes;
      } else {
        PollReports(c, readOnly, r, node);
      }
    } else if RemoteChanged(n, etag, drifted) {
      PollDrops(c, readOnly, r, node, etag, size);
    } else {
      PollAdopts(c, readOnly, r, node, etag);
    }
  }

  lemma {:induction false} PollReports(c: Core, readOnly: bool, r: Row, node: nat)
    requires c.row == Some(r) && node in c.nodes
    ensures CoreFold(c, readOnly, [UpdateNode(node, Patch(None, None, None, None, Some(Conflict))),
                                   StatusRow(Id(r.id), Conflict)])
         == c.(row := Some(r.(status := Conflict)), nodes := c.nodes[node := c.nodes[node].(status := Conflict)])
  {
    FoldTwo(c, readOnly, UpdateNode(node, Patch(None, None, None, None, Some(Conflict))),
            StatusRow(Id(r.id), Conflict));
  }

  lemma {:induction false} PollAdopts(c: Core, readOnly: bool, r: Row, node: nat, etag: string)
    requires c.row == Some(r) && node in c.nodes
    ensures CoreFold(c, readOnly, [UpdateNode(node, Patch(Some(etag), None, None, None, None)),
                                   RemoteVersion(Id(r.id), etag)])
         == c.(row := Some(r.(etag := etag)), nodes := c.nodes[node := c.nodes[node].(etag := etag)])
  {
    FoldTwo(c, readOnly, UpdateNode(node, Patch(Some(etag), None, None, None, None)), RemoteVersion(Id(r.id), etag));
  }

  lemma {:induction false} PollMembers(seen: Seen, node: nat, etag: string, drifted: bool, size: Option<nat>)
    ensures var ops := PlanPollEntry(seen, node, etag, drifted, size).ops;
            var dirty, changed := seen.node.dirty || RowDirty(seen.row), RemoteChanged(seen.node, etag, drifted);
            var id := Id(seen.node.id);
            && (InvalidateRow(id) in ops <==> !dirty && changed)
            && (RemoteVersion(id, etag) in ops <==> !(dirty && changed))
  {
  }

  lemma {:induction false} PollDrops(c: Core, readOnly: bool, r: Row, node: nat, etag: string, size: Option<nat>)
    requires c.row == Some(r) && node in c.nodes && c.nodes[node].id == r.id
    ensures var n := c.nodes[node];
            CoreFold(c, readOnly, [UpdateNode(node, Patch(None, size, Some(false), None, None)),
                                   InvalidateRow(Id(r.id))]
                                  + [UpdateNode(node, Patch(Some(etag), None, None, None, None)),
                                     RemoteVersion(Id(r.id), etag)])
            == c.(row := Some(InvalidateCache(r).(etag := etag)),
                  nodes := c.nodes[node := n.(etag := etag, cached := false, size := Or(size, n.size))])
  {
    var n := c.nodes[node];
    var drop := [UpdateNode(node, Patch(None, size, Some(false), None, None)), InvalidateRow(Id(r.id))];
    var adopt := [UpdateNode(node, Patch(Some(etag), None, None, None, None)), RemoteVersion(Id(r.id), etag)];
    FoldConcat(c, readOnly, drop, adopt);
    FoldTwo(c, readOnly, drop[0], drop[1]);
    var n1 := n.(cached := false, size := Or(size, n.size));
    var c1 := c.(row := Some(InvalidateCache(r)), nodes := c.nodes[node := n1]);
    assert CoreFold(c, readOnly, drop) == c1;
    FoldTwo(c1, readOnly, adopt[0], adopt[1]);
  }

  // ---------------------------------------------------------------- conflicts

  /**
   A file that changed while the bytes were fetched is not replaced: the publication turns into a conflict, and the
   row ends dirty, in conflict and not cached.
   */
  lemma {:induction false} EditDuringDownloadIsKept(h: Digest, s: Sys, t: nat, pathSafe: bool, file: LocalFile)
    requires t in s.threads && s.threads[t].Fetched? && s.threads[t].node in s.nodes
    requires s.row.Some? && s.row.value.id == s.nodes[s.threads[t].node].id
    requires s.nodes[s.threads[t].node].etag == s.threads[t].etag
    requires !SameState(h, s.threads[t].before, s.disk) || s.row.value.dirty || !pathSafe
    ensures var s' := ExecMany(PublishThread(h, s, t, pathSafe, file), t, 2);
            && s'.disk == s.disk && s'.row == Some(MarkLocalConflict(s.row.value)) && s'.queue == s.queue
            && s'.row.value.dirty && s'.row.value.status == Conflict && !s'.row.value.cached
            && Baseline(s'.row.value) == Baseline(s.row.value) && s'.row.value.etag == s.row.value.etag
  {
    PublicationRefused(h, s, t, pathSafe, file);
    ConflictRuns(PublishThread(h, s, t, pathSafe, file), t, s.threads[t].node, s.row.value);
  }

  lemma {:induction false} PublicationRefused(h: Digest, s: Sys, t: nat, pathSafe: bool, file: LocalFile)
    requires t in s.threads && s.threads[t].Fetched? && s.threads[t].node in s.nodes
    requires s.row.Some? && s.row.value.id == s.nodes[s.threads[t].node].id
    requires s.nodes[s.threads[t].node].etag == s.threads[t].etag
    requires !SameState(h, s.threads[t].before, s.disk) || s.row.value.dirty || !pathSafe
    ensures PublishThread(h, s, t, pathSafe, file)
         == SetThread(s, t, Script(Conflicted(s.threads[t].node, s.row.value.id).ops, 0, Finish))
  {
  }

  /** markLocalConflict, run to its end. */
  lemma {:induction false} ConflictRuns(s: Sys, t: nat, node: nat, r: Row)
    requires s.row == Some(r) && t in s.threads && s.threads[t] == Script(Conflicted(node, r.id).ops, 0, Finish)
    ensures var s' := ExecMany(s, t, 2);
            s'.disk == s.disk && s'.row == Some(MarkLocalConflict(r)) && s'.queue == s.queue
  {
    var ops := Conflicted(node, r.id).ops;
    ScriptRuns(s, t, ops, Finish);
    FoldTwo(CoreOf(s), s.readOnly, ops[0], ops[1]);
    var done := ExecMany(s, t, 2);
    assert AsideOf(done) == AsideOf(s) && CoreOf(done) == CoreFold(CoreOf(s), s.readOnly, ops);
  }

  /** Keeping both: the local bytes survive as a copy, the row is clean and uncached, and nothing is queued for it. */
  lemma {:induction false} KeepBothKeepsBoth(s: Sys, t: nat, seen: Seen, node: Option<nat>)
    requires s.row.Some? && s.row.value.status == Conflict && s.disk.Some? && seen.row == s.row
    requires t in s.threads && s.threads[t] == Script(PlanResolve(seen, KeepBoth, node, s.readOnly).ops, 0, Finish)
    ensures var s' := ExecMany(s, t, |s.threads[t].ops|);
            && s.disk.value.content in s'.copies && s'.disk == None
            && s'.row == Some(InvalidateCache(MarkSynced(s.row.value, "")))
            && !s'.row.value.dirty && s'.row.value.status == Synced && !s'.row.value.cached
            && Baseline(s'.row.value) == Baseline(s.row.value)
            && (forall k :: k in s'.queue <==> k in s.queue && s.queue[k].inode != s.row.value.id)
            && (forall k :: k in s'.queue ==> s'.queue[k] == s.queue[k])
  {
    var id := Id(s.row.value.id);
    var rest := [DropQueued(id), SyncedRow(id, ""), InvalidateRow(id)] + SetNode(node, Synced, false);
    assert s.threads[t].ops == [KeepCopy] + rest;
    CopyRuns(s, t, rest);
    var copied := ExecThread(s, t);
    ScriptRuns(copied, t, rest, Finish);
    AcceptFold(CoreOf(copied), s.row.value, s.readOnly, node);
    var done := ExecMany(copied, t, |rest|);
    assert AsideOf(done) == AsideOf(copied) && CoreOf(done) == CoreFold(CoreOf(copied), s.readOnly, rest);
  }

  lemma {:induction false} CopyRuns(s: Sys, t: nat, rest: seq<Op>)
    requires s.disk.Some? && t in s.threads && s.threads[t] == Script([KeepCopy] + rest, 0, Finish)
    ensures var s' := ExecThread(s, t);
            && s'.disk == None && s.disk.value.content in s'.copies && s'.readOnly == s.readOnly
            && CoreOf(s') == CoreOf(s) && t in s'.threads && s'.threads[t] == Script(rest, 0, Finish)
  {
    assert ([KeepCopy] + rest)[1..] == rest;
  }

  lemma {:induction false} AcceptFold(c: Core, r: Row, readOnly: bool, node: Option<nat>)
    requires c.row == Some(r)
    ensures var id := Id(r.id);
            var ops := [DropQueued(id), SyncedRow(id, ""), InvalidateRow(id)] + SetNode(node, Synced, false);
            var c' := CoreFold(c, readOnly, ops);
            c'.row == Some(InvalidateCache(MarkSynced(r, ""))) && c'.queue == Queue.DropInode(c.queue, r.id)
  {
    var id := Id(r.id);
    var tail := SetNode(node, Synced, false);
    assert [DropQueued(id), SyncedRow(id, ""), InvalidateRow(id)] + tail
        == [DropQueued(id)] + ([SyncedRow(id, "")] + ([InvalidateRow(id)] + tail));
    var unqueued := c.(queue := Queue.DropInode(c.queue, r.id));
    FoldCons(c, readOnly, DropQueued(id), [SyncedRow(id, "")] + ([InvalidateRow(id)] + tail));
    assert CoreAfter(c, readOnly, DropQueued(id)) == unqueued;
    AcceptRow(unqueued, r, readOnly, node);
  }

  lemma {:induction false} AcceptRow(c: Core, r: Row, readOnly: bool, node: Option<nat>)
    requires c.row == Some(r)
    ensures var id := Id(r.id);
            var c' := CoreFold(c, readOnly, [SyncedRow(id, "")] + ([InvalidateRow(id)] + SetNode(node, Synced, false)));
            c'.row == Some(InvalidateCache(MarkSynced(r, ""))) && c'.queue == c.queue
  {
    var id, tail := Id(r.id), SetNode(node, Synced, false);
    var r1 := MarkSynced(r, "");
    FoldCons(c, readOnly, SyncedRow(id, ""), [InvalidateRow(id)] + tail);
    RowStep(c, readOnly, SyncedRow(id, ""), r);
    FoldCons(c.(row := Some(r1)), readOnly, InvalidateRow(id), tail);
    RowStep(c.(row := Some(r1)), readOnly, InvalidateRow(id), r1);
    NodeTail(c.(row := Some(InvalidateCache(r1))), readOnly, node);
  }

  lemma {:induction false} NodeTail(c: Core, readOnly: bool, node: Option<nat>)
    ensures var c' := CoreFold(c, readOnly, SetNode(node, Synced, false)); c'.row == c.row && c'.queue == c.queue
  {
    if node.Some? { FoldOne(c, readOnly, SetNode(node, Synced, false)[0]); }
  }

  /** The pending-edit flag can fall without any upload: a finished delete, mkdir or rename entry marks its row too. */
  lemma {:induction false} OtherEntryClearsDirty(s: Sys, b: nat, t: nat)
    requires t !in s.threads && RowDirty(s.row) && Ready(s, b)
    requires s.batches[b].todo[0].entry.action != Queue.Upload && s.batches[b].todo[0].entry.inode == s.row.value.id
    ensures var s' := ExecMany(TakeNonUpload(s, b, t, true, false), t, 2);
            && s'.row == Some(MarkSynced(s.row.value, "")) && !RowDirty(s'.row)
            && s'.held == s.held && s'.disk == s.disk && s.batches[b].todo[0].key !in s'.queue
  {
    var key := s.batches[b].todo[0].key;
    var ops := [RemoveEntry(key), SyncedRow(Id(s.row.value.id), "")];
    var taken := TakeNonUpload(s, b, t, true, false);
    TakeRuns(s, b, t);
    ScriptRuns(taken, t, ops, Finish);
    OtherFold(CoreOf(taken), s.readOnly, key, s.row.value);
    var done := ExecMany(taken, t, 2);
    assert AsideOf(done) == AsideOf(taken) && CoreOf(done) == CoreFold(CoreOf(taken), s.readOnly, ops);
  }

  lemma {:induction false} TakeRuns(s: Sys, b: nat, t: nat)
    requires t !in s.threads && Ready(s, b) && s.batches[b].todo[0].entry.action != Queue.Upload
    ensures var s' := TakeNonUpload(s, b, t, true, false);
            var row := s.batches[b].todo[0];
            && AsideOf(s') == AsideOf(s) && s'.row == s.row && t in s'.threads
            && s'.threads[t] == Script([RemoveEntry(row.key), SyncedRow(Id(row.entry.inode), "")], 0, Finish)
  {
  }

  lemma {:induction false} OtherFold(c: Core, readOnly: bool, entry: nat, r: Row)
    requires c.row == Some(r)
    ensures CoreFold(c, readOnly, [RemoveEntry(entry), SyncedRow(Id(r.id), "")])
         == c.(row := Some(MarkSynced(r, "")), queue := c.queue - {entry})
  {
    FoldTwo(c, readOnly, RemoveEntry(entry), SyncedRow(Id(r.id), ""));
    RowStep(c.(queue := c.queue - {entry}), readOnly, SyncedRow(Id(r.id), ""), r);
  }
}
