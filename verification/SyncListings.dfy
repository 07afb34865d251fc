/** What listings, scans, removals and evictions leave, run to their ends. */
module SyncListings {
  import opened Options
  import opened CacheRow
  import opened SyncState
  import opened SyncActors
  import opened SyncSafety
  import opened SyncProgress
  import opened SyncEffects
  import Queue

  ghost predicate NothingQueued(q: Queue.Table, id: nat) { forall k :: k in q ==> q[k].inode != id }

  // ---------------------------------------------------------------- removals

  /** A removed file that was in step is queued for deletion, once; any other is forgotten with all it had queued. */
  ghost predicate Forgotten(c: Scene, c': Scene, readOnly: bool) {
    if c.row.None? then c' == c
    else
      var r := c.row.value;
      && c' == c.(row := c'.row, queue := c'.queue, next := c'.next) && OthersKept(c.queue, c'.queue, r.id)
      && if r.status == Synced || r.status == Conflict then
           && c'.row == c.row
           && (if readOnly then c'.queue == c.queue else WaitsAlone(c'.queue, r.id, Queue.Delete, c.next))
         else c'.row.None? && NothingQueued(c'.queue, r.id)
  }

  lemma {:induction false} RemovalPlays(c: Scene, readOnly: bool, seen: Seen)
    requires seen.row == c.row && forall k :: k in c.queue ==> k < c.next
    ensures Forgotten(c, Played(c, readOnly, PlanRemoved(seen).ops, 0).0, readOnly)
  {
    if c.row.Some? {
      var r := c.row.value;
      if r.status == Synced || r.status == Conflict {
        PlayOne(c, readOnly, Enqueue(Id(r.id), Queue.Delete, 0), 0);
        Queues(c.queue, c.next, r.id, Queue.Delete);
      } else {
        PlayTwo(c, readOnly, DropQueued(Id(r.id)), DeleteRow, 0);
      }
    }
  }

  lemma {:induction false} RemovalExactly(h: Digest, s: Sys, t: nat, node: Node)
    requires CanStart(s, t) && forall k :: k in s.queue ==> k < s.nextEntry
    ensures var s' := Effect(h, s, t, node, Removed);
            && Reaches(h, s, s') && s'.held == s.held && Forgotten(SceneOf(s), SceneOf(s'), s.readOnly)
  {
    TaskPlays(h, s, t, node, Removed);
    RemovalPlays(SceneOf(s), s.readOnly, Seen(s.row, s.disk, node));
  }

  /** A file that is gone from the server goes to the trash with its row, unless an edit of it is pending. */
  predicate Pruned(c: Scene, c': Scene, node: Node) {
    if node.dirty || RowDirty(c.row) then c' == c
    else
      && c' == c.(row := None, disk := None, attached := None, trash := c'.trash)
      && c'.trash == c.trash + (if c.disk.Some? then {c.disk.value.content} else {})
  }

  lemma {:induction false} PrunePlays(c: Scene, readOnly: bool)
    ensures var c' := Played(c, readOnly, [DetachNode, TrashLocal, DeleteRow], 0).0;
            && c' == c.(row := None, disk := None, attached := None, trash := c'.trash)
            && c'.trash == c.trash + (if c.disk.Some? then {c.disk.value.content} else {})
  {
    PlayThree(c, readOnly, DetachNode, TrashLocal, DeleteRow, 0);
  }

  lemma {:induction false} PruneExactly(h: Digest, s: Sys, t: nat, node: Node)
    requires CanStart(s, t)
    ensures var s' := Effect(h, s, t, node, PollPrune);
            && Reaches(h, s, s') && s'.held == s.held && Pruned(SceneOf(s), SceneOf(s'), node)
  {
    TaskPlays(h, s, t, node, PollPrune);
    PrunePlays(SceneOf(s), s.readOnly);
  }

  /** A start forgets a failed or rejected row without a file, and every entry that was given up. */
  ghost predicate Cleaned(c: Scene, c': Scene) {
    var stale := c.row.Some? && c.disk.None? && (c.row.value.status == Failed || c.row.value.status == Rejected);
    && c' == c.(row := if stale then None else c.row, queue := c'.queue)
    && (forall k :: k in c'.queue <==>
          k in c.queue && c.queue[k].state != Queue.GaveUp && !(stale && c.queue[k].inode == c.row.value.id))
    && (forall k :: k in c'.queue ==> c'.queue[k] == c.queue[k])
  }

  lemma {:induction false} StalePlays(h: Digest, c: Scene, readOnly: bool, seen: Seen)
    requires seen.row == c.row && seen.disk == c.disk
    ensures Cleaned(c, Played(c, readOnly, MakePlan(h, seen, CleanStale, readOnly).ops, 0).0)
  {
    if c.row.Some? && c.disk.None? && (c.row.value.status == Failed || c.row.value.status == Rejected) {
      ForgetPlays(c, readOnly, c.row.value.id);
    } else {
      PlayOne(c, readOnly, PurgeFailed, 0);
    }
  }

  lemma {:induction false} ForgetPlays(c: Scene, readOnly: bool, id: nat)
    ensures Played(c, readOnly, [PurgeFailed, DropQueued(Id(id)), DeleteRow], 0).0
         == c.(row := None, queue := Queue.DropInode(Queue.DropFailed(c.queue), id))
  {
    PlayThree(c, readOnly, PurgeFailed, DropQueued(Id(id)), DeleteRow, 0);
  }

  lemma {:induction false} StaleExactly(h: Digest, s: Sys, t: nat, node: Node)
    requires CanStart(s, t)
    ensures var s' := Effect(h, s, t, node, CleanStale);
            && Reaches(h, s, s') && s'.held == s.held && Cleaned(SceneOf(s), SceneOf(s'))
  {
    TaskPlays(h, s, t, node, CleanStale);
    StalePlays(h, SceneOf(s), s.readOnly, Seen(s.row, s.disk, node));
  }

  lemma {:induction false} RejectedPlays(h: Digest, c: Scene, readOnly: bool, seen: Seen)
    ensures var c' := Played(c, readOnly, MakePlan(h, seen, CleanRejected, readOnly).ops, 0).0;
            c' == c.(row := if c.row.Some? && c.row.value.status == Rejected then None else c.row,
                     attached := if seen.node.status == Rejected then None else c.attached)
  {
    PlayCons(c, readOnly, DeleteIfRejected, if seen.node.status == Rejected then [DetachNode] else [], 0);
    var c1 := SceneAfter(c, readOnly, DeleteIfRejected, 0).0;
    PlayOne(c1, readOnly, DetachNode, 0);
  }

  /** The "clean" command forgets the row exactly when it is rejected, and leaves file and queue. */
  lemma {:induction false} CleanExactly(h: Digest, s: Sys, t: nat, node: Node)
    requires CanStart(s, t)
    ensures var s' := Effect(h, s, t, node, CleanRejected);
            && Reaches(h, s, s') && s'.held == s.held && s'.disk == s.disk && s'.queue == s.queue
            && s'.row == (if s.row.Some? && s.row.value.status == Rejected then None else s.row)
            && s'.attached == (if node.status == Rejected then None else s.attached)
  {
    TaskPlays(h, s, t, node, CleanRejected);
    RejectedPlays(h, SceneOf(s), s.readOnly, Seen(s.row, s.disk, node));
    assert SceneOf(Effect(h, s, t, node, CleanRejected)).row == Effect(h, s, t, node, CleanRejected).row;
  }

  /** An eviction takes only a cached, clean, unpinned row; it keeps the baseline and touches neither file nor queue. */
  predicate Evicted(c: Scene, c': Scene, owner: Option<nat>) {
    if c.row.Some? && c.row.value.cached && !c.row.value.dirty && !c.row.value.pinned then
      && c' == c.(row := c'.row, nodes := c'.nodes)
      && c'.row.Some? && c'.row.value.id == c.row.value.id && !c'.row.value.cached && !c'.row.value.dirty
      && c'.row.value.status == c.row.value.status && c'.row.value.localHash == ""
      && Baseline(c'.row.value) == Baseline(c.row.value) && c'.row.value.etag == c.row.value.etag
      && c'.nodes == (if owner.Some? && owner.value in c.nodes
                      then c.nodes[owner.value := c.nodes[owner.value].(cached := false)] else c.nodes)
    else c' == c
  }

  lemma {:induction false} EvictionPlays(h: Digest, c: Scene, readOnly: bool, seen: Seen, owner: Option<nat>)
    requires seen.row == c.row
    ensures Evicted(c, Played(c, readOnly, MakePlan(h, seen, Evict(owner), readOnly).ops, 0).0, owner)
  {
    if c.row.Some? && c.row.value.cached && !c.row.value.dirty && !c.row.value.pinned {
      InvalidationPlays(c, readOnly, c.row.value, owner);
    }
  }

  lemma {:induction false} InvalidationPlays(c: Scene, readOnly: bool, r: Row, owner: Option<nat>)
    requires c.row == Some(r)
    ensures var mark := if owner.None? then []
                        else [UpdateNode(owner.value, Patch(None, None, Some(false), None, None))];
            Played(c, readOnly, [InvalidateRow(Id(r.id))] + mark, 0).0
            == c.(row := Some(InvalidateCache(r)),
                  nodes := if owner.Some? && owner.value in c.nodes
                           then c.nodes[owner.value := c.nodes[owner.value].(cached := false)] else c.nodes)
  {
    var mark := if owner.None? then [] else [UpdateNode(owner.value, Patch(None, None, Some(false), None, None))];
    var c1 := c.(row := Some(InvalidateCache(r)));
    PlayCons(c, readOnly, InvalidateRow(Id(r.id)), mark, 0);
    assert SceneAfter(c, readOnly, InvalidateRow(Id(r.id)), 0) == (c1, 0);
    if owner.Some? { PlayOne(c1, readOnly, mark[0], 0); }
  }

  lemma {:induction false} EvictionExactly(h: Digest, s: Sys, t: nat, node: Node, owner: Option<nat>)
    requires CanStart(s, t)
    ensures var s' := Effect(h, s, t, node, Evict(owner));
            && Reaches(h, s, s') && s'.held == s.held && Evicted(SceneOf(s), SceneOf(s'), owner)
  {
    TaskPlays(h, s, t, node, Evict(owner));
    EvictionPlays(h, SceneOf(s), s.readOnly, Seen(s.row, s.disk, node), owner);
  }

  // ---------------------------------------------------------------- listings

  /** A listed file without a pending edit has a row and a new node of that version; nothing is fetched or sent. */
  ghost predicate Listed(c: Scene, c': Scene, n: nat, etag: string, size: nat) {
    && c' == c.(row := c'.row, nextRow := c'.nextRow, nodes := c'.nodes, attached := c'.attached)
    && c'.row.Some?
    && var r := c'.row.value;
       && !r.cached && r.status == Synced && r.size == size && (etag != "" ==> r.etag == etag)
       && (if c.row.Some? then
             r.id == c.row.value.id && r.dirty == c.row.value.dirty && Baseline(r) == Baseline(c.row.value)
           else r.id == c.nextRow && !r.dirty && Baseline(r) == "")
       && (n !in c.nodes ==>
             c'.nodes == c.nodes[n := Node(r.id, etag, size, false, false, Synced)] && c'.attached == Some(n))
  }

  lemma {:induction false} ListingPlays(c: Scene, readOnly: bool, n: nat, etag: string, size: nat)
    ensures var ops := [UpsertRow(Inode(THIS_PATH, size, false, false, "", "", etag, Synced)),
                        AttachNode(n, Node(0, etag, size, false, false, Synced))];
            Listed(c, Played(c, readOnly, ops, 0).0, n, etag, size)
  {
    PlayTwo(c, readOnly, UpsertRow(Inode(THIS_PATH, size, false, false, "", "", etag, Synced)),
            AttachNode(n, Node(0, etag, size, false, false, Synced)), 0);
  }

  lemma {:induction false} NewEntryExactly(h: Digest, s: Sys, t: nat, node: Node, n: nat, etag: string, size: nat)
    requires CanStart(s, t)
    ensures var s' := Effect(h, s, t, node, PollNew(n, etag, size));
            && Reaches(h, s, s') && s'.held == s.held && Listed(SceneOf(s), SceneOf(s'), n, etag, size)
  {
    TaskPlays(h, s, t, node, PollNew(n, etag, size));
    ListingPlays(SceneOf(s), s.readOnly, n, etag, size);
  }

  /** A pending edit keeps version, baseline and flag; a listing of another version puts it in conflict. */
  ghost predicate Kept(c: Scene, c': Scene, r: Row, n: nat, etag: string) {
    && c' == c.(row := c'.row, nodes := c'.nodes, attached := c'.attached)
    && c'.row.Some?
    && var now := c'.row.value;
       && now.id == r.id && now.dirty && !now.cached && now.etag == r.etag && Baseline(now) == Baseline(r)
       && now.status == (if r.etag != etag then Conflict else r.status)
       && (n !in c.nodes ==>
             && c'.nodes == c.nodes[n := Node(now.id, now.etag, now.size, false, true, now.status)]
             && c'.attached == Some(n))
  }

  lemma {:induction false} PopulatePlays(c: Scene, readOnly: bool, seen: Seen, n: nat, etag: string, size: nat)
    requires seen.row == c.row
    ensures var c' := Played(c, readOnly, PlanPopulate(seen, n, etag, size).ops, 0).0;
            if RowDirty(c.row) then Kept(c, c', c.row.value, n, etag) else Listed(c, c', n, etag, size)
  {
    var ops := PlanPopulate(seen, n, etag, size).ops;
    if RowDirty(c.row) {
      PlayTwo(c, readOnly, ops[0], ops[1], 0);
    } else {
      ListingPlays(c, readOnly, n, etag, size);
    }
  }

  /** The listing of a directory that is opened. */
  lemma {:induction false} PopulateExactly(h: Digest, s: Sys, t: nat, node: Node, n: nat, etag: string, size: nat)
    requires CanStart(s, t)
    ensures var s' := Effect(h, s, t, node, Populate(n, etag, size));
            && Reaches(h, s, s') && s'.held == s.held
            && if RowDirty(s.row) then Kept(SceneOf(s), SceneOf(s'), s.row.value, n, etag)
               else Listed(SceneOf(s), SceneOf(s'), n, etag, size)
  {
    TaskPlays(h, s, t, node, Populate(n, etag, size));
    PopulatePlays(SceneOf(s), s.readOnly, Seen(s.row, s.disk, node), n, etag, size);
  }

  /** The same for a file that has a node: exactly an edit that meets another version is put in conflict. */
  ghost predicate Merged(c: Scene, c': Scene, r: Row, n: nat, etag: string, size: Option<nat>) {
    && n in c.nodes && n in c'.nodes && c'.row.Some?
    && c' == c.(row := c'.row, nodes := c.nodes[n := c'.nodes[n]])
    && c'.row.value.id == r.id && Baseline(c'.row.value) == Baseline(r)
    && if (c.nodes[n].dirty || r.dirty) && c.nodes[n].etag != etag then
         Clashes(r, c.nodes[n], c'.row.value, c'.nodes[n])
       else Adopts(r, c.nodes[n], c'.row.value, c'.nodes[n], etag, size)
  }

  predicate Clashes(r: Row, n: Node, now: Row, node: Node) {
    now.dirty && !now.cached && now.status == Conflict && now.etag == r.etag && node == n.(status := Conflict)
  }

  predicate Adopts(r: Row, n: Node, now: Row, node: Node, etag: string, size: Option<nat>) {
    && now.dirty == r.dirty && now.status == r.status && now.etag == etag && now.cached == (r.cached && n.etag == etag)
    && node == n.(etag := etag, size := Or(size, n.size), cached := n.cached && n.etag == etag)
  }

  lemma {:induction false} AdoptPlays(c: Scene, readOnly: bool, r: Row, n: nat, etag: string, size: Option<nat>)
    requires c.row == Some(r) && n in c.nodes && c.nodes[n].id == r.id
    ensures var ops := [UpdateNode(n, Patch(Some(etag), size, None, None, None)), RemoteVersion(Id(r.id), etag)];
            Played(c, readOnly, ops, 0).0
            == c.(row := Some(r.(etag := etag)),
                  nodes := c.nodes[n := c.nodes[n].(etag := etag, size := Or(size, c.nodes[n].size))])
  {
    PlayTwo(c, readOnly, UpdateNode(n, Patch(Some(etag), size, None, None, None)), RemoteVersion(Id(r.id), etag), 0);
  }

  lemma {:induction false} DropPlays(c: Scene, readOnly: bool, r: Row, n: nat)
    requires c.row == Some(r) && n in c.nodes && c.nodes[n].id == r.id
    ensures Played(c, readOnly, [UpdateNode(n, Patch(None, None, Some(false), None, None)), InvalidateRow(Id(r.id))], 0)
         == (c.(row := Some(InvalidateCache(r)), nodes := c.nodes[n := c.nodes[n].(cached := false)]), 0)
  {
    PlayTwo(c, readOnly, UpdateNode(n, Patch(None, None, Some(false), None, None)), InvalidateRow(Id(r.id)), 0);
  }

  lemma {:induction false} ClashPlays(c: Scene, readOnly: bool, r: Row, n: nat)
    requires c.row == Some(r) && n in c.nodes
    ensures var mark := UpdateNode(n, Patch(None, None, None, None, Some(Conflict)));
            Played(c, readOnly, [mark, ConflictRow(Id(r.id))], 0)
            == (c.(row := Some(MarkLocalConflict(r)), nodes := c.nodes[n := c.nodes[n].(status := Conflict)]), 0)
  {
    PlayTwo(c, readOnly, UpdateNode(n, Patch(None, None, None, None, Some(Conflict))), ConflictRow(Id(r.id)), 0);
  }

  lemma {:induction false} AnewPlays(c: Scene, readOnly: bool, r: Row, n: nat, etag: string, size: Option<nat>)
    requires c.row == Some(r) && n in c.nodes && c.nodes[n].id == r.id
    ensures var drop := [UpdateNode(n, Patch(None, None, Some(false), None, None)), InvalidateRow(Id(r.id))];
            var adopt := [UpdateNode(n, Patch(Some(etag), size, None, None, None)), RemoteVersion(Id(r.id), etag)];
            Played(c, readOnly, drop + adopt, 0).0
            == c.(row := Some(InvalidateCache(r).(etag := etag)),
                  nodes := c.nodes[n := c.nodes[n].(etag := etag, size := Or(size, c.nodes[n].size), cached := false)])
  {
    var drop := [UpdateNode(n, Patch(None, None, Some(false), None, None)), InvalidateRow(Id(r.id))];
    var adopt := [UpdateNode(n, Patch(Some(etag), size, None, None, None)), RemoteVersion(Id(r.id), etag)];
    var c1 := c.(row := Some(InvalidateCache(r)), nodes := c.nodes[n := c.nodes[n].(cached := false)]);
    PlayConcat(c, readOnly, drop, adopt, 0);
    DropPlays(c, readOnly, r, n);
    AdoptPlays(c1, readOnly, InvalidateCache(r), n, etag, size);
  }

  lemma {:induction false} RepopulatePlays(c: Scene, readOnly: bool, seen: Seen, r: Row, n: nat, etag: string,
                                           size: Option<nat>)
    requires c.row == Some(r) && n in c.nodes && c.nodes[n].id == r.id && seen.row == c.row && seen.node == c.nodes[n]
    ensures Merged(c, Played(c, readOnly, PlanRepopulate(seen, n, etag, size).ops, 0).0, r, n, etag, size)
  {
    var adopt := [UpdateNode(n, Patch(Some(etag), size, None, None, None)), RemoteVersion(Id(r.id), etag)];
    assert [] + adopt == adopt;
    if (seen.node.dirty || r.dirty) && seen.node.etag != etag {
      ClashPlays(c, readOnly, r, n);
    } else if seen.node.etag == etag {
      AdoptPlays(c, readOnly, r, n, etag, size);
    } else {
      AnewPlays(c, readOnly, r, n, etag, size);
    }
  }

  lemma {:induction false} RepopulateExactly(h: Digest, s: Sys, t: nat, n: nat, etag: string, size: Option<nat>)
    requires CanStart(s, t) && s.row.Some? && n in s.nodes && s.nodes[n].id == s.row.value.id
    ensures var s' := Effect(h, s, t, s.nodes[n], Repopulate(n, etag, size));
            && Reaches(h, s, s') && s'.held == s.held
            && Merged(SceneOf(s), SceneOf(s'), s.row.value, n, etag, size)
  {
    TaskPlays(h, s, t, s.nodes[n], Repopulate(n, etag, size));
    RepopulatePlays(SceneOf(s), s.readOnly, Seen(s.row, s.disk, s.nodes[n]), s.row.value, n, etag, size);
  }

  // ---------------------------------------------------------------- new local files

  /** A file without a row gets one, and its upload waits if it may be sent; a row that is there stays. */
  ghost predicate Scanned(c: Scene, c': Scene, valid: bool, readOnly: bool) {
    if c.disk.None? || c.row.Some? then c' == c
    else
      && c' == c.(row := c'.row, nextRow := c'.nextRow, queue := c'.queue, next := c'.next)
      && c'.row.Some? && c'.row.value.id == c.nextRow && c'.row.value.dirty && !c'.row.value.cached
      && Baseline(c'.row.value) == "" && c'.row.value.status == (if valid then Pending else Rejected)
      && (if valid then UploadWaits(c, c', c.nextRow, readOnly) else c'.queue == c.queue)
  }

  lemma {:induction false} ScanExactly(h: Digest, s: Sys, t: nat, node: Node, valid: bool)
    requires CanStart(s, t) && forall k :: k in s.queue ==> k < s.nextEntry
    ensures var s' := Effect(h, s, t, node, ScanNew(valid));
            && Reaches(h, s, s') && s'.held == s.held && Scanned(SceneOf(s), SceneOf(s'), valid, s.readOnly)
  {
    TaskPlays(h, s, t, node, ScanNew(valid));
    if s.disk.Some? && s.row.None? {
      var c, seen := SceneOf(s), Seen(s.row, s.disk, node);
      NewFilePlays(c, s.readOnly, seen, valid);
      if valid {
        UploadQueues(c, Played(c, s.readOnly, PlanNewFile(seen, valid).ops, 0).0, c.queue, c.nextRow, s.readOnly);
      }
    }
  }

  /**
   An edit the watcher takes up is pending, with the baseline it had; its upload waits if the file may be sent.  Only a
   file that is gone, or is what the row says, synced, is passed over.
   */
  ghost predicate Ingested(h: Digest, c: Scene, c': Scene, valid: bool, readOnly: bool) {
    if c.disk.None? then c' == c
    else
      var hash := h(c.disk.value.content);
      if c.row.Some? && c.row.value.contentHash == hash && c.row.value.status == Synced then c' == c
      else
        && c' == c.(row := c'.row, nextRow := c'.nextRow, queue := c'.queue, next := c'.next)
        && c'.row.Some?
        && var r := c'.row.value;
           && r.dirty && r.cached && r.contentHash == hash && r.status == (if valid then Pending else Rejected)
           && (if c.row.Some? then r.id == c.row.value.id && Baseline(r) == Baseline(c.row.value)
               else r.id == c.nextRow && Baseline(r) == "")
           && (if valid then UploadWaits(c, c', r.id, readOnly) else c'.queue == c.queue)
  }

  lemma {:induction false} IngestPlays(h: Digest, c: Scene, readOnly: bool, seen: Seen, valid: bool)
    requires seen.row == c.row && seen.disk == c.disk && forall k :: k in c.queue ==> k < c.next
    ensures Ingested(h, c, Played(c, readOnly, PlanIngest(h, seen, valid).ops, 0).0, valid, readOnly)
  {
    var ops := PlanIngest(h, seen, valid).ops;
    if ops != [] {
      var r := Upsert(c.row, c.nextRow, ops[0].inode);
      PlayOne(c, readOnly, ops[0], 0);
      if valid {
        PlayTwo(c, readOnly, ops[0], Enqueue(Returned, Queue.Upload, 0), 0);
        UploadQueues(c, Played(c, readOnly, ops, 0).0, c.queue, r.id, readOnly);
      }
    }
  }

  lemma {:induction false} IngestExactly(h: Digest, s: Sys, t: nat, node: Node, valid: bool)
    requires CanStart(s, t) && forall k :: k in s.queue ==> k < s.nextEntry
    ensures var s' := Effect(h, s, t, node, Ingest(valid));
            && Reaches(h, s, s') && s'.held == s.held && Ingested(h, SceneOf(s), SceneOf(s'), valid, s.readOnly)
  {
    TaskPlays(h, s, t, node, Ingest(valid));
    IngestPlays(h, SceneOf(s), s.readOnly, Seen(s.row, s.disk, node), valid);
  }
}
