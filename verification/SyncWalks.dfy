/**
 The walks over the remote tree, which fetch what is missing and protect what is here.  What a walk does with a file
 follows from two questions: has the file been edited, and has the remote version moved?
 */
module SyncWalks {
  import opened Options
  import opened CacheRow
  import opened SyncState
  import opened SyncActors
  import opened SyncSafety
  import opened SyncProgress
  import opened SyncEffects
  import Queue

  // ---------------------------------------------------------------- the questions

  /** A later walk passes over what is here and what is pending. */
  predicate Skipped(r: Row, n: Node, initial: bool) { !initial && (n.cached || n.dirty || r.dirty) }

  /** The local content belongs to the version that is listed. */
  predicate InVersion(r: Row, n: Node) { n.etag != "" && r.localEtag == n.etag }

  /** The file is the listed version, and complete. */
  predicate Current(h: Digest, r: Row, n: Node, f: LocalFile) {
    InVersion(r, n) && r.localHash != "" && h(f.content) == r.localHash && |f.content| == n.size
  }

  datatype Verdict = Pass | Mark | Send | Dispute | Load

  /** What becomes of the file. */
  function Judge(h: Digest, r: Row, n: Node, disk: Option<LocalFile>, initial: bool, due: bool): Verdict {
    if Skipped(r, n, initial) then Pass
    else if r.dirty then (if disk.None? || Baseline(r) == "" then Dispute else Pass)
    else if disk.None? then (if initial || due then Load else Pass)
    else if Current(h, r, n, disk.value) then Mark
    else if Baseline(r) == "" then Dispute
    else if Edited(h, r, disk.value) then (if InVersion(r, n) then Send else Dispute)
    else if initial || due then Load else Pass
  }

  /** The verdicts, in the user's terms: nothing is fetched over an edit, and nothing is sent over another version. */
  lemma {:induction false} VerdictsProtect(h: Digest, r: Row, n: Node, disk: Option<LocalFile>, initial: bool,
                                           due: bool)
    ensures var v := Judge(h, r, n, disk, initial, due);
            && (v == Load ==> !r.dirty && (disk.Some? ==> h(disk.value.content) == Baseline(r)))
            && (v == Send ==> !r.dirty && disk.Some? && Edited(h, r, disk.value) && r.localEtag == n.etag)
            && (v == Dispute ==> r.dirty || (disk.Some? && h(disk.value.content) != Baseline(r)) || Baseline(r) == "")
            && (!Skipped(r, n, initial) && !r.dirty && disk.Some? && Edited(h, r, disk.value) ==>
                  v == Send || v == Dispute)
            && (!Skipped(r, n, initial) && !r.dirty && (initial || due) ==> v != Pass)
  {
  }

  /** The snapshot a download starts from. */
  function BeforeOf(h: Digest, disk: Option<LocalFile>): Option<Snapshot> {
    if disk.None? then None else Some(Snap(h, disk.value))
  }

  // ---------------------------------------------------------------- the answers

  /** Row and node of a file in dispute; the file and the queue are left alone. */
  ghost predicate Disputes(c: Scene, c': Scene, r: Row, n: nat) {
    && n in c.nodes && c'.row.Some?
    && c' == c.(row := c'.row, nodes := c.nodes[n := c.nodes[n].(cached := false, dirty := true, status := Conflict)])
    && c'.row.value.id == r.id && c'.row.value.dirty && !c'.row.value.cached && c'.row.value.status == Conflict
    && Baseline(c'.row.value) == Baseline(r) && c'.row.value.etag == r.etag
  }

  /** The edit is pending and its upload waits, if the file may be sent; the node follows. */
  ghost predicate Sends(c: Scene, c': Scene, r: Row, n: nat, size: nat, valid: bool, readOnly: bool) {
    && n in c.nodes && c'.row.Some?
    && c' == c.(row := c'.row, queue := c'.queue, next := c'.next,
                nodes := c.nodes[n := c.nodes[n].(id := r.id, size := size, cached := false, dirty := true)])
    && c'.row.value.id == r.id && c'.row.value.dirty && !c'.row.value.cached && c'.row.value.etag == r.etag
    && c'.row.value.status == (if valid then Pending else Rejected) && c'.row.value.size == size
    && Baseline(c'.row.value) == ""
    && (if valid then UploadWaits(c, c', r.id, readOnly) else c'.queue == c.queue)
  }

  ghost predicate Answers(c: Scene, c': Scene, v: Verdict, r: Row, n: nat, valid: bool, readOnly: bool) {
    match v
    case Pass => c' == c
    case Mark =>
      && n in c.nodes
      && c' == c.(row := Some(r.(status := Synced)), nodes := c.nodes[n := c.nodes[n].(cached := true)])
    case Send => c.disk.Some? && Sends(c, c', r, n, |c.disk.value.content|, valid, readOnly)
    case Dispute => Disputes(c, c', r, n)
    case Load => c' == c
  }

  lemma {:induction false} DisputePlays(c: Scene, readOnly: bool, r: Row, n: nat)
    requires c.row == Some(r) && n in c.nodes
    ensures Disputes(c, Played(c, readOnly, Conflicted(n, r.id).ops, 0).0, r, n)
  {
    PlayTwo(c, readOnly, ConflictRow(Id(r.id)),
            UpdateNode(n, Patch(None, None, Some(false), Some(true), Some(Conflict))), 0);
  }

  lemma {:induction false} MarkPlays(c: Scene, readOnly: bool, r: Row, n: nat)
    requires c.row == Some(r) && n in c.nodes
    ensures var mark := UpdateNode(n, Patch(None, None, Some(true), None, None));
            Played(c, readOnly, [mark, StatusRow(Id(r.id), Synced)], 0).0
            == c.(row := Some(r.(status := Synced)), nodes := c.nodes[n := c.nodes[n].(cached := true)])
  {
    PlayTwo(c, readOnly, UpdateNode(n, Patch(None, None, Some(true), None, None)), StatusRow(Id(r.id), Synced), 0);
  }

  /** Row and node of a file that is tracked again, before its upload is queued. */
  function Tracked(c: Scene, r: Row, n: nat, size: nat, valid: bool): Scene
    requires n in c.nodes
  {
    var upserted := Upsert(Some(r), c.nextRow, NewInode(THIS_PATH, size, if valid then Pending else Rejected));
    c.(row := Some(SetLocalContent(upserted, "")),
       nodes := c.nodes[n := c.nodes[n].(id := r.id, size := size, cached := false, dirty := true)])
  }

  function TrackOps(n: nat, size: nat, valid: bool): seq<Op> {
    [UpdateNode(n, Patch(None, Some(size), Some(false), Some(true), None)),
     UpsertRow(NewInode(THIS_PATH, size, if valid then Pending else Rejected)),
     AdoptId(n), LocalContent(Returned, "")]
  }

  lemma {:induction false} TrackPlays(c: Scene, readOnly: bool, r: Row, n: nat, size: nat, valid: bool)
    requires c.row == Some(r) && n in c.nodes
    ensures Played(c, readOnly, TrackOps(n, size, valid), 0) == (Tracked(c, r, n, size, valid), r.id)
  {
    var update, write := TrackOps(n, size, valid)[0], TrackOps(n, size, valid)[1];
    assert TrackOps(n, size, valid) == [update] + ([write] + [AdoptId(n), LocalContent(Returned, "")]);
    PlayCons(c, readOnly, update, [write] + [AdoptId(n), LocalContent(Returned, "")], 0);
    var c1 := c.(nodes := c.nodes[n := c.nodes[n].(size := size, cached := false, dirty := true)]);
    assert SceneAfter(c, readOnly, update, 0) == (c1, 0);
    PlayCons(c1, readOnly, write, [AdoptId(n), LocalContent(Returned, "")], 0);
    var c2 := c1.(row := Some(Upsert(Some(r), c.nextRow, write.inode)));
    assert SceneAfter(c1, readOnly, write, 0) == (c2, r.id);
    AdoptedPlays(c2, readOnly, c2.row.value, n);
    assert c1.nodes[n := c1.nodes[n].(id := r.id)] == Tracked(c, r, n, size, valid).nodes;
  }

  lemma {:induction false} AdoptedPlays(c: Scene, readOnly: bool, r: Row, n: nat)
    requires c.row == Some(r) && n in c.nodes
    ensures Played(c, readOnly, [AdoptId(n), LocalContent(Returned, "")], r.id)
         == (c.(row := Some(SetLocalContent(r, "")), nodes := c.nodes[n := c.nodes[n].(id := r.id)]), r.id)
  {
    PlayTwo(c, readOnly, AdoptId(n), LocalContent(Returned, ""), r.id);
  }

  lemma {:induction false} SendPlays(c: Scene, readOnly: bool, r: Row, n: nat, seen: Seen, valid: bool)
    requires c.row == Some(r) && n in c.nodes && c.disk.Some? && seen.disk == c.disk
    requires forall k :: k in c.queue ==> k < c.next
    ensures var ops := EnqueueLocalUpload(n, seen, valid).ops;
            Sends(c, Played(c, readOnly, ops, 0).0, r, n, |c.disk.value.content|, valid, readOnly)
  {
    var size, ops := |c.disk.value.content|, EnqueueLocalUpload(n, seen, valid).ops;
    TrackPlays(c, readOnly, r, n, size, valid);
    if valid {
      var c1 := Tracked(c, r, n, size, valid);
      assert ops == TrackOps(n, size, valid) + [Enqueue(Returned, Queue.Upload, 0)];
      PlayConcat(c, readOnly, TrackOps(n, size, valid), [Enqueue(Returned, Queue.Upload, 0)], 0);
      PlayOne(c1, readOnly, Enqueue(Returned, Queue.Upload, 0), r.id);
      UploadQueues(c, Played(c, readOnly, ops, 0).0, c.queue, r.id, readOnly);
    } else {
      assert ops == TrackOps(n, size, valid);
    }
  }

  /** The plan of a walk that looks at one state is its verdict's. */
  lemma {:induction false} PlanIsVerdict(h: Digest, r: Row, n: Node, disk: Option<LocalFile>, k: nat, initial: bool,
                                         due: bool, valid: bool)
    requires n.id == r.id
    ensures var seen := Seen(Some(r), disk, n);
            var p := PlanWalk(h, seen, k, initial, due, valid);
            match Judge(h, r, n, disk, initial, due)
            case Pass => p == Nothing()
            case Mark =>
              p == Statements([UpdateNode(k, Patch(None, None, Some(true), None, None)), StatusRow(Id(r.id), Synced)])
            case Send => p == EnqueueLocalUpload(k, seen, valid)
            case Dispute => p == Conflicted(k, r.id)
            case Load => p == Download(BeforeOf(h, disk))
  {
  }

  // ---------------------------------------------------------------- the theorem

  /**
   Either walk, undisturbed, on a file with node and row.  An edit is sent when its version is the listed one, and is
   disputed otherwise; a copy that is current is marked; what is neither edited nor current is fetched, from a snapshot
   of the file; and nothing else happens.
   */
  lemma {:induction false} WalkExactly(h: Digest, s: Sys, t: nat, n: nat, initial: bool, due: bool, valid: bool)
    requires CanStart(s, t) && forall k :: k in s.queue ==> k < s.nextEntry
    requires n in s.nodes && s.row.Some? && s.nodes[n].id == s.row.value.id
    ensures var s' := Effect(h, s, t, s.nodes[n], Walk(n, initial, due, valid));
            var v := Judge(h, s.row.value, s.nodes[n], s.disk, initial, due);
            && s'.held == s.held && Reaches(h, s, s')
            && Answers(SceneOf(s), SceneOf(s'), v, s.row.value, n, valid, s.readOnly)
            && (v == Load <==> t in s'.threads && s'.threads[t].Fetching?)
            && (v == Load ==> s'.threads[t] == Fetching(n, s.nodes[n].etag, BeforeOf(h, s.disk)))
  {
    if Judge(h, s.row.value, s.nodes[n], s.disk, initial, due) == Load {
      FetchStarts(h, s, t, n, initial, due, valid);
    } else {
      WalkEnds(h, s, t, n, initial, due, valid);
    }
  }

  lemma {:induction false} WalkEnds(h: Digest, s: Sys, t: nat, n: nat, initial: bool, due: bool, valid: bool)
    requires CanStart(s, t) && forall k :: k in s.queue ==> k < s.nextEntry
    requires n in s.nodes && s.row.Some? && s.nodes[n].id == s.row.value.id
    requires Judge(h, s.row.value, s.nodes[n], s.disk, initial, due) != Load
    ensures var s' := Effect(h, s, t, s.nodes[n], Walk(n, initial, due, valid));
            var v := Judge(h, s.row.value, s.nodes[n], s.disk, initial, due);
            && s'.held == s.held && Reaches(h, s, s') && t in s'.threads && s'.threads[t].Script?
            && Answers(SceneOf(s), SceneOf(s'), v, s.row.value, n, valid, s.readOnly)
  {
    WalkPlays(h, s, t, n, initial, due, valid);
    WalkAnswers(h, s.row.value, s.nodes[n], s.disk, n, initial, due, valid);
    TaskPlays(h, s, t, s.nodes[n], Walk(n, initial, due, valid));
  }

  lemma {:induction false} WalkAnswers(h: Digest, r: Row, n: Node, disk: Option<LocalFile>, k: nat, initial: bool,
                                       due: bool, valid: bool)
    requires n.id == r.id && Judge(h, r, n, disk, initial, due) != Load
    ensures var p := PlanWalk(h, Seen(Some(r), disk, n), k, initial, due, valid); p.Statements? && KeepCopy !in p.ops
  {
    PlanIsVerdict(h, r, n, disk, k, initial, due, valid);
  }

  lemma {:induction false} FetchStarts(h: Digest, s: Sys, t: nat, n: nat, initial: bool, due: bool, valid: bool)
    requires CanStart(s, t) && n in s.nodes && s.row.Some? && s.nodes[n].id == s.row.value.id
    requires Judge(h, s.row.value, s.nodes[n], s.disk, initial, due) == Load
    ensures var s' := Effect(h, s, t, s.nodes[n], Walk(n, initial, due, valid));
            s' == SetThread(s, t, Fetching(n, s.nodes[n].etag, BeforeOf(h, s.disk))) && Reaches(h, s, s')
  {
    PlanIsVerdict(h, s.row.value, s.nodes[n], s.disk, n, initial, due, valid);
    ReachesItself(h, s);
    OneMore(h, s, s, Start(t, Seen(s.row, s.disk, s.nodes[n]), Walk(n, initial, due, valid)));
  }

  lemma {:induction false} WalkPlays(h: Digest, s: Sys, t: nat, n: nat, initial: bool, due: bool, valid: bool)
    requires forall k :: k in s.queue ==> k < s.nextEntry
    requires n in s.nodes && s.row.Some? && s.nodes[n].id == s.row.value.id
    requires Judge(h, s.row.value, s.nodes[n], s.disk, initial, due) != Load
    ensures var p := PlanWalk(h, Seen(s.row, s.disk, s.nodes[n]), n, initial, due, valid);
            var v := Judge(h, s.row.value, s.nodes[n], s.disk, initial, due);
            && p.Statements?
            && Answers(SceneOf(s), Played(SceneOf(s), s.readOnly, p.ops, 0).0, v, s.row.value, n, valid, s.readOnly)
  {
    var c, r := SceneOf(s), s.row.value;
    PlanIsVerdict(h, r, s.nodes[n], s.disk, n, initial, due, valid);
    match Judge(h, r, s.nodes[n], s.disk, initial, due)
    case Mark => MarkPlays(c, s.readOnly, r, n);
    case Send => SendPlays(c, s.readOnly, r, n, Seen(s.row, s.disk, s.nodes[n]), valid);
    case Dispute => DisputePlays(c, s.readOnly, r, n);
    case _ =>
  }
}
