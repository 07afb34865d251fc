/**
 The statements by which an upload ends in the interleaved machine are those of the write-back processor: run without
 interruption they give the row, the queue and the node that the processor's functions describe.
 */
module SyncAgreement {
  import opened Options
  import opened CacheRow
  import opened SyncState
  import opened SyncActors
  import opened SyncProgress
  import opened Writeback
  import Queue

  /** What the processor saw, as the machine's settle event names it. */
  function Answer(h: Digest, a: After, disk: Option<LocalFile>, moved: bool): World
    requires a.SettleUpload?
  {
    World(Confirmed(a.digest, a.etag), if disk.Some? then Some(h(disk.value.content)) else None, moved, 0)
  }

  /** The row and queue statements that settle an upload, without the node update in front. */
  lemma {:induction false} SettleSplits(h: Digest, a: After, disk: Option<LocalFile>, moved: bool, e: Queue.Entry)
    requires a.SettleUpload? && e.action == Queue.Upload
    ensures var changed := NeedsFollowUp(true, a.owner.Some?, e, Answer(h, a, disk, moved));
            var patch := Patch(Some(a.etag), None, None, Some(changed), Some(if changed then Pending else Synced));
            SettleOps(h, a, disk, moved)
            == (if a.owner.None? then [] else [UpdateNode(a.owner.value, patch)])
               + (if changed
                  then [DirtyRow(Id(a.inode)), Enqueue(Id(a.inode), FollowUp(true, Answer(h, a, disk, moved)), 0)]
                  else [SyncedRow(Id(a.inode), a.etag)])
  {
  }

  lemma {:induction false} RecordFold(c: Core, readOnly: bool, k: nat, r: Row, digest: string, etag: string)
    requires c.row == Some(r) && digest != ""
    ensures CoreFold(c, readOnly, RecordUploadOps(k, r.id, digest, etag))
         == c.(row := Some(RecordUploaded(r, digest, etag)), queue := c.queue - {k})
  {
    var id := Id(r.id);
    var ops := RecordUploadOps(k, r.id, digest, etag);
    assert ops == [ops[0], ops[1]] + [ops[2]];
    FoldConcat(c, readOnly, [ops[0], ops[1]], [ops[2]]);
    FoldTwo(c, readOnly, ops[0], ops[1]);
    FoldOne(CoreFold(c, readOnly, [ops[0], ops[1]]), readOnly, ops[2]);
  }

  /** The node update, then the row and the queue. */
  lemma {:induction false} SettleFold(h: Digest, c: Core, readOnly: bool, r: Row, a: After, disk: Option<LocalFile>,
                                      moved: bool,
                                      e: Queue.Entry)
    requires c.row == Some(r) && a.SettleUpload? && r.id == a.inode == e.inode && e.action == Queue.Upload
    ensures var w := Answer(h, a, disk, moved);
            var changed := NeedsFollowUp(true, a.owner.Some?, e, w);
            var c' := CoreFold(c, readOnly, SettleOps(h, a, disk, moved));
            && c'.row == Some(if changed then CacheRow.MarkDirty(r) else MarkSynced(r, a.etag))
            && c'.queue == (if changed && !readOnly then Queue.Enqueue(c.queue, c.next, a.inode, FollowUp(true, w), 0)
                            else c.queue)
            && (a.owner.Some? && a.owner.value in c.nodes ==>
                  && a.owner.value in c'.nodes
                  && c'.nodes[a.owner.value] == SettledNode(c.nodes[a.owner.value], e, w, changed))
  {
    SettleSplits(h, a, disk, moved, e);
    var w := Answer(h, a, disk, moved);
    var changed := NeedsFollowUp(true, a.owner.Some?, e, w);
    var patch := Patch(Some(a.etag), None, None, Some(changed), Some(if changed then Pending else Synced));
    var front := if a.owner.None? then [] else [UpdateNode(a.owner.value, patch)];
    var back := if changed then [DirtyRow(Id(a.inode)), Enqueue(Id(a.inode), FollowUp(true, w), 0)]
                else [SyncedRow(Id(a.inode), a.etag)];
    FoldConcat(c, readOnly, front, back);
    if a.owner.Some? { FoldOne(c, readOnly, front[0]); }
    var c1 := CoreFold(c, readOnly, front);
    assert c1 == c.(nodes := c1.nodes);
    if changed {
      FoldTwo(c1, readOnly, back[0], back[1]);
    } else {
      FoldOne(c1, readOnly, back[0]);
    }
  }

  /** A confirmed upload, recorded and settled. */
  lemma {:induction false} UploadAgrees(h: Digest, c: Core, readOnly: bool, r: Row, a: After, disk: Option<LocalFile>,
                                        moved: bool)
    requires c.row == Some(r) && a.SettleUpload? && r.id == a.inode && a.digest != "" && a.entry in c.queue
    requires c.queue[a.entry].inode == a.inode && c.queue[a.entry].action == Queue.Upload
    ensures var e, w := c.queue[a.entry], Answer(h, a, disk, moved);
            var changed := NeedsFollowUp(true, a.owner.Some?, e, w);
            var ops := RecordUploadOps(a.entry, a.inode, a.digest, a.etag) + SettleOps(h, a, disk, moved);
            var c' := CoreFold(c, readOnly, ops);
            && c'.row == Some(SettledRow(r, e, w, changed))
            && c'.queue == SettledQueue(c.queue, a.entry, w, changed && !readOnly, c.next, true)
            && (a.owner.Some? && a.owner.value in c.nodes ==>
                  && a.owner.value in c'.nodes
                  && c'.nodes[a.owner.value] == SettledNode(c.nodes[a.owner.value], e, w, changed))
  {
    var e := c.queue[a.entry];
    var recorded := c.(row := Some(RecordUploaded(r, a.digest, a.etag)), queue := c.queue - {a.entry});
    RecordFold(c, readOnly, a.entry, r, a.digest, a.etag);
    FoldConcat(c, readOnly, RecordUploadOps(a.entry, a.inode, a.digest, a.etag), SettleOps(h, a, disk, moved));
    SettleFold(h, recorded, readOnly, RecordUploaded(r, a.digest, a.etag), a, disk, moved, e);
  }

  /** A failed attempt: the same row, node and queue, up to the time at which a retry is due. */
  lemma {:induction false} FailureAgrees(c: Core, readOnly: bool, r: Row, k: nat, owner: Option<nat>, w: World,
                                         freshId: nat)
    requires c.row == Some(r) && k in c.queue && c.queue[k].inode == r.id && w.outcome.Error?
    requires owner.Some? ==> owner.value in c.nodes
    ensures var e := c.queue[k];
            var c' := CoreFold(c, readOnly, FailOps(k, r.id, owner, e.attempts, w.outcome.permanent));
            var q := SettledQueue(c.queue, k, w, false, freshId, true);
            && c'.row == Some(SettledRow(r, e, w, false))
            && c'.queue == q[k := q[k].(enqueuedAt := e.enqueuedAt)]
            && c'.nodes == (if owner.None? then c.nodes
                            else c.nodes[owner.value := SettledNode(c.nodes[owner.value], e, w, false)])
  {
    var e := c.queue[k];
    if GivesUp(e, w.outcome) {
      GiveUpFold(c, readOnly, r, k, owner, w.outcome.permanent);
    } else {
      var ops := FailOps(k, r.id, owner, e.attempts, w.outcome.permanent);
      FoldTwo(c, readOnly, ops[0], ops[1]);
      if owner.Some? { assert c.nodes[owner.value := c.nodes[owner.value]] == c.nodes; }
    }
  }

  lemma {:induction false} GiveUpFold(c: Core, readOnly: bool, r: Row, k: nat, owner: Option<nat>, permanent: bool)
    requires c.row == Some(r) && k in c.queue && (c.queue[k].attempts + 1 >= 3 || permanent)
    requires owner.Some? ==> owner.value in c.nodes
    ensures var e := c.queue[k];
            CoreFold(c, readOnly, FailOps(k, r.id, owner, e.attempts, permanent))
            == Core(Some(SetSyncStatus(r, Failed)), c.queue[k := e.(state := Queue.GaveUp, attempts := e.attempts + 1)],
                    c.next, if owner.None? then c.nodes
                            else c.nodes[owner.value := c.nodes[owner.value].(status := Failed)])
  {
    var ops := FailOps(k, r.id, owner, c.queue[k].attempts, permanent);
    var tail := if owner.None? then [] else [UpdateNode(owner.value, Patch(None, None, None, None, Some(Failed)))];
    FoldConcat(c, readOnly, [ops[0], ops[1]], tail);
    FoldTwo(c, readOnly, ops[0], ops[1]);
    if owner.Some? { FoldOne(CoreFold(c, readOnly, [ops[0], ops[1]]), readOnly, tail[0]); }
  }
}
