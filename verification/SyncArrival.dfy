/** A local edit arrives: ingest, claim, upload, confirmation and settling, with nobody in between. */
module SyncArrival {
  import opened Options
  import opened CacheRow
  import opened SyncState
  import opened SyncActors
  import opened SyncSafety
  import opened SyncProgress
  import opened SyncAgreement
  import opened Writeback
  import Queue

  // ---------------------------------------------------------------- ingest

  /** The row the watcher writes for a valid file. */
  function Ingested(s: Sys, content: Content, hash: string): Row {
    Upsert(s.row, s.nextRow, Inode(THIS_PATH, |content|, true, true, hash, "", "", Pending))
  }

  /** The watcher's turn: two statements. */
  function WatcherRuns(h: Digest, s: Sys, t: nat, node: Node): Sys {
    ExecMany(StartThread(h, s, t, Seen(s.row, s.disk, node), Ingest(true)), t, 2)
  }

  lemma {:induction false} IngestStarts(h: Digest, s: Sys, t: nat, node: Node)
    requires s.disk.Some? && t !in s.threads && Logged(s, s.row)
    requires s.row.Some? ==> !(s.row.value.contentHash == h(s.disk.value.content) && s.row.value.status == Synced)
    ensures var content := s.disk.value.content;
            var upsert := UpsertRow(Inode(THIS_PATH, |content|, true, true, h(content), "", "", Pending));
            StartThread(h, s, t, Seen(s.row, s.disk, node), Ingest(true))
            == SetThread(s, t, Script([upsert] + [Enqueue(Returned, Queue.Upload, 0)], 0, Finish))
  {
    var content := s.disk.value.content;
    var upsert := UpsertRow(Inode(THIS_PATH, |content|, true, true, h(content), "", "", Pending));
    assert [upsert, Enqueue(Returned, Queue.Upload, 0)] == [upsert] + [Enqueue(Returned, Queue.Upload, 0)];
  }

  lemma {:induction false} UpsertRuns(s: Sys, t: nat, inode: Inode, rest: seq<Op>)
    requires t in s.threads && s.threads[t] == Script([UpsertRow(inode)] + rest, 0, Finish)
    ensures var s' := ExecThread(s, t);
            var r := Upsert(s.row, s.nextRow, inode);
            && AsideOf(s') == AsideOf(s) && s'.row == Some(r) && s'.batches == s.batches
            && s'.queue == s.queue && s'.nextEntry == s.nextEntry && s'.nodes == s.nodes && s'.attached == s.attached
            && s'.threads == s.threads[t := Script(rest, r.id, Finish)]
  {
    assert ([UpsertRow(inode)] + rest)[1..] == rest;
  }

  lemma {:induction false} EnqueueRuns(s: Sys, t: nat, id: nat)
    requires t in s.threads && s.threads[t] == Script([Enqueue(Returned, Queue.Upload, 0)], id, Finish) && !s.readOnly
    ensures var s' := ExecThread(s, t);
            && AsideOf(s') == AsideOf(s) && s'.row == s.row && s'.batches == s.batches && s'.nodes == s.nodes
            && s'.queue == Queue.Enqueue(s.queue, s.nextEntry, id, Queue.Upload, 0) && s'.attached == s.attached
            && s'.threads == s.threads[t := Script([], id, Finish)]
  {
    var op := Enqueue(Returned, Queue.Upload, 0);
    RowOpFrame(s, op, id);
    NodeOpFrame(RunQueueOp(RunRowOp(s, op, id), op, id), op, id);
    assert [op][1..] == [];
  }

  lemma {:induction false} WatcherStage(h: Digest, s: Sys, t: nat, node: Node)
    requires s.disk.Some? && !s.readOnly && t !in s.threads && Logged(s, s.row)
    requires s.row.Some? ==> !(s.row.value.contentHash == h(s.disk.value.content) && s.row.value.status == Synced)
    ensures var s' := WatcherRuns(h, s, t, node);
            var r := Ingested(s, s.disk.value.content, h(s.disk.value.content));
            && AsideOf(s') == AsideOf(s) && s'.row == Some(r) && s'.batches == s.batches
            && s'.queue == Queue.Enqueue(s.queue, s.nextEntry, r.id, Queue.Upload, 0)
            && s'.threads.Keys == s.threads.Keys + {t}
  {
    var content := s.disk.value.content;
    var inode := Inode(THIS_PATH, |content|, true, true, h(content), "", "", Pending);
    var rest := [Enqueue(Returned, Queue.Upload, 0)];
    IngestStarts(h, s, t, node);
    var started := SetThread(s, t, Script([UpsertRow(inode)] + rest, 0, Finish));
    UpsertRuns(started, t, inode, rest);
    var upserted := ExecThread(started, t);
    EnqueueRuns(upserted, t, upserted.row.value.id);
  }

  // ---------------------------------------------------------------- upload

  /** The processor claims the row, hands it to thread u, and the server accepts and confirms. */
  function Sent(s: Sys, b: nat, u: nat, key: nat, content: Content): Sys {
    Take(Claim(s, b, [key]), b, u, content, s.row)
  }

  lemma {:induction false} SendStage(s: Sys, b: nat, u: nat, key: nat, content: Content)
    requires b !in s.batches && u !in s.threads && key in s.queue && s.queue[key].state == Queue.Waiting
    requires s.queue[key].action == Queue.Upload && (s.row.Some? ==> s.row.value.status != Conflict)
    ensures var s' := Sent(s, b, u, key, content);
            var e := s.queue[key];
            && AsideOf(s') == AsideOf(s) && s'.row == s.row
            && s'.queue == MarkClaimed(s.queue, [key])
            && u in s'.threads && s'.threads[u].Sending? && s'.threads[u].entry == key
            && s'.threads[u].inode == e.inode && s'.threads[u].body == content
            && s'.threads[u].attempts == e.attempts && s'.threads[u].owner == OwnerOf(s, e.inode)
  {
    OneTicket(s.queue, key);
    var claimed := Claim(s, b, [key]);
    assert claimed.batches[b] == Batch([Ticket(key, s.queue[key])], [], None);
  }

  lemma {:induction false} OneTicket(q: Queue.Table, key: nat)
    requires key in q
    ensures Tickets(q, [key]) == [Ticket(key, q[key])]
  {
    assert [key][1..] == [];
  }

  /** The upload from the server's acceptance to the last statement. */
  function Uploaded(h: Digest, s: Sys, u: nat, etag: string): Sys {
    var accepted := Perform(h, s, ServerAccepts(u));
    var replied := Perform(h, accepted, Reply(u, Some(etag), false));
    var recorded := ExecMany(replied, u, 3);
    var settled := SettleThread(h, recorded, u, recorded.disk, false);
    ExecMany(settled, u, if u in settled.threads && settled.threads[u].Script? then |settled.threads[u].ops| else 0)
  }

  lemma {:induction false} ReplyStage(h: Digest, s: Sys, u: nat, etag: string)
    requires u in s.threads && s.threads[u].Sending?
    ensures var sent := s.threads[u];
            var s' := Perform(h, Perform(h, s, ServerAccepts(u)), Reply(u, Some(etag), false));
            var after := SettleUpload(sent.entry, sent.inode, sent.owner, h(sent.body), etag);
            && AsideOf(s') == AsideOf(s).(held := s.held + {sent.body}) && CoreOf(s') == CoreOf(s)
            && s'.threads
               == s.threads[u := Script(RecordUploadOps(sent.entry, sent.inode, h(sent.body), etag), 0, after)]
  {
  }

  /** A confirmed upload whose file is still what was sent. */
  lemma {:induction false} UploadStage(h: Digest, s: Sys, u: nat, etag: string, r: Row)
    requires u in s.threads && s.threads[u].Sending? && s.row == Some(r) && r.id == s.threads[u].inode
    requires s.disk.Some? && s.disk.value.content == s.threads[u].body && h(s.threads[u].body) != ""
    ensures var sent := s.threads[u];
            var s' := Uploaded(h, s, u, etag);
            && s'.disk == s.disk && sent.body in s'.held
            && s'.row == Some(MarkSynced(RecordUploaded(r, h(sent.body), etag), etag))
            && s'.queue == s.queue - {sent.entry}
  {
    var sent := s.threads[u];
    var digest := h(sent.body);
    ReplyStage(h, s, u, etag);
    var replied := Perform(h, Perform(h, s, ServerAccepts(u)), Reply(u, Some(etag), false));
    var after := SettleUpload(sent.entry, sent.inode, sent.owner, digest, etag);
    RecordStage(replied, u, sent.entry, r, digest, etag, after);
    var recorded := ExecMany(replied, u, 3);
    assert recorded.disk == AsideOf(recorded).disk == s.disk;
    SettleStage(h, recorded, u, RecordUploaded(r, digest, etag), after);
  }

  lemma {:induction false} RecordStage(s: Sys, u: nat, entry: nat, r: Row, digest: string, etag: string, after: After)
    requires u in s.threads && s.threads[u] == Script(RecordUploadOps(entry, r.id, digest, etag), 0, after)
    requires s.row == Some(r) && digest != ""
    ensures var s' := ExecMany(s, u, 3);
            && AsideOf(s') == AsideOf(s)
            && CoreOf(s') == CoreOf(s).(row := Some(RecordUploaded(r, digest, etag)), queue := s.queue - {entry})
            && s'.threads == s.threads[u := Script([], 0, after)]
  {
    ScriptRuns(s, u, RecordUploadOps(entry, r.id, digest, etag), after);
    RecordFold(CoreOf(s), s.readOnly, entry, r, digest, etag);
    assert ViewOf(ExecMany(s, u, 3)).core == CoreOf(ExecMany(s, u, 3));
  }

  lemma {:induction false} SettleStage(h: Digest, s: Sys, u: nat, r: Row, a: After)
    requires u in s.threads && s.threads[u] == Script([], 0, a) && a.SettleUpload?
    requires s.row == Some(r) && r.id == a.inode
    requires s.disk.Some? && h(s.disk.value.content) == a.digest
    ensures var ops := SettleOps(h, a, s.disk, false);
            var s' := ExecMany(SettleThread(h, s, u, s.disk, false), u, |ops|);
            && SettleThread(h, s, u, s.disk, false) == SetThread(s, u, Script(ops, 0, Finish))
            && AsideOf(s') == AsideOf(s) && s'.row == Some(MarkSynced(r, a.etag)) && s'.queue == s.queue
  {
    var ops := SettleOps(h, a, s.disk, false);
    var settled := SetThread(s, u, Script(ops, 0, Finish));
    ScriptRuns(settled, u, ops, Finish);
    SettleFold(h, CoreOf(settled), s.readOnly, r, a, s.disk, false,
               Queue.Entry(a.inode, Queue.Upload, 0, 0, Queue.Waiting));
    var done := ExecMany(settled, u, |ops|);
    assert ViewOf(done).aside == AsideOf(done) && ViewOf(done).core == CoreOf(done);
  }

  // ---------------------------------------------------------------- a failed attempt

  /** The error branch, from the answer to the last statement. */
  function Failed(h: Digest, s: Sys, u: nat, permanent: bool): Sys {
    var replied := Perform(h, s, Reply(u, None, permanent));
    ExecMany(replied, u, if u in replied.threads && replied.threads[u].Script? then |replied.threads[u].ops| else 0)
  }

  /** The entry keeps its place with one attempt more, waiting or given up; edit, baseline and version are kept. */
  predicate Fails(c: Core, c': Core, r: Row, k: nat, permanent: bool)
    requires k in c.queue
  {
    var e := c.queue[k];
    var over := e.attempts >= 2 || permanent;
    && c'.queue == c.queue[k := e.(state := if over then Queue.GaveUp else Queue.Waiting, attempts := e.attempts + 1)]
    && c'.row.Some? && c'.row.value.id == r.id && c'.row.value.dirty == r.dirty && c'.row.value.etag == r.etag
    && Baseline(c'.row.value) == Baseline(r) && c'.row.value.status == if over then CacheRow.Failed else Pending
  }

  /** A failed attempt, undisturbed: the edit stays pending and queued, and the file is as it was. */
  lemma {:induction false} FailStage(h: Digest, s: Sys, u: nat, permanent: bool, r: Row)
    requires u in s.threads && s.threads[u].Sending? && s.row == Some(r) && r.id == s.threads[u].inode
    requires s.threads[u].entry in s.queue && s.queue[s.threads[u].entry].inode == r.id
    requires s.queue[s.threads[u].entry].attempts == s.threads[u].attempts
    ensures var s' := Failed(h, s, u, permanent);
            s'.disk == s.disk && s'.held == s.held && Fails(CoreOf(s), CoreOf(s'), r, s.threads[u].entry, permanent)
  {
    var replied := Perform(h, s, Reply(u, None, permanent));
    var ops := FailOps(s.threads[u].entry, r.id, OwnerOf(s, r.id), s.threads[u].attempts, permanent);
    FailReplied(h, s, u, permanent);
    FailOnly(s.threads[u].entry, r.id, OwnerOf(s, r.id), s.threads[u].attempts, permanent);
    ScriptLeaves(replied, u, ops, Finish, ExecMany(replied, u, |ops|));
    FailCore(CoreOf(s), s.readOnly, r, s.threads[u].entry, OwnerOf(s, r.id), permanent);
  }

  lemma {:induction false} FailReplied(h: Digest, s: Sys, u: nat, permanent: bool)
    requires u in s.threads && s.threads[u].Sending?
    ensures var sent := s.threads[u];
            var s' := Perform(h, s, Reply(u, None, permanent));
            var ops := FailOps(sent.entry, sent.inode, OwnerOf(s, sent.inode), sent.attempts, permanent);
            && AsideOf(s') == AsideOf(s) && CoreOf(s') == CoreOf(s) && u in s'.threads
            && s'.threads[u] == Script(ops, 0, Finish)
  {
  }

  lemma {:induction false} FailCore(c: Core, readOnly: bool, r: Row, k: nat, owner: Option<nat>, permanent: bool)
    requires c.row == Some(r) && k in c.queue && c.queue[k].inode == r.id && (owner.Some? ==> owner.value in c.nodes)
    ensures Fails(c, CoreFold(c, readOnly, FailOps(k, r.id, owner, c.queue[k].attempts, permanent)), r, k, permanent)
  {
    FailureAgrees(c, readOnly, r, k, owner, World(Error(permanent, 0), None, false, 0), 0);
  }

  // ---------------------------------------------------------------- the whole way

  /** From the watcher's turn to the end of the upload. */
  function EditRuns(h: Digest, s: Sys, t: nat, b: nat, u: nat, node: Node, etag: string): Sys
    requires s.disk.Some?
  {
    Uploaded(h, Sent(WatcherRuns(h, s, t, node), b, u, s.nextEntry, s.disk.value.content), u, etag)
  }

  lemma {:induction false} WatcherIsRun(h: Digest, s: Sys, t: nat, node: Node)
    ensures Reaches(h, s, WatcherRuns(h, s, t, node))
  {
    var ingest := Start(t, Seen(s.row, s.disk, node), Ingest(true));
    ReachesItself(h, s);
    OneMore(h, s, s, ingest);
    ManyMore(h, s, Perform(h, s, ingest), t, 2);
  }

  lemma {:induction false} SendIsRun(h: Digest, s: Sys, s': Sys, b: nat, u: nat, key: nat, content: Content)
    requires Reaches(h, s, s')
    ensures Reaches(h, s, Sent(s', b, u, key, content))
  {
    OneMore(h, s, s', ClaimRows(b, [key]));
    OneMore(h, s, Claim(s', b, [key]), TakeUpload(b, u, content, s'.row));
  }

  lemma {:induction false} SettleIsRun(h: Digest, s: Sys, s': Sys, u: nat, n: nat)
    requires Reaches(h, s, s')
    ensures Reaches(h, s, ExecMany(SettleThread(h, s', u, s'.disk, false), u, n))
  {
    OneMore(h, s, s', Settle(u, s'.disk, false));
    ManyMore(h, s, SettleThread(h, s', u, s'.disk, false), u, n);
  }

  lemma {:induction false} RecordIsRun(h: Digest, s: Sys, s': Sys, u: nat, etag: string, n: nat)
    requires Reaches(h, s, s')
    ensures Reaches(h, s, ExecMany(Perform(h, Perform(h, s', ServerAccepts(u)), Reply(u, Some(etag), false)), u, n))
  {
    OneMore(h, s, s', ServerAccepts(u));
    OneMore(h, s, Perform(h, s', ServerAccepts(u)), Reply(u, Some(etag), false));
    ManyMore(h, s, Perform(h, Perform(h, s', ServerAccepts(u)), Reply(u, Some(etag), false)), u, n);
  }

  lemma {:induction false} UploadIsRun(h: Digest, s: Sys, s': Sys, u: nat, etag: string)
    requires Reaches(h, s, s')
    ensures Reaches(h, s, Uploaded(h, s', u, etag))
  {
    RecordIsRun(h, s, s', u, etag, 3);
    var recorded := ExecMany(Perform(h, Perform(h, s', ServerAccepts(u)), Reply(u, Some(etag), false)), u, 3);
    var settled := SettleThread(h, recorded, u, recorded.disk, false);
    SettleIsRun(h, s, recorded, u,
                if u in settled.threads && settled.threads[u].Script? then |settled.threads[u].ops| else 0);
  }

  /** The watcher's turn, the claim and the upload are a run of the machine. */
  lemma {:induction false} EditIsRun(h: Digest, s: Sys, t: nat, b: nat, u: nat, node: Node, etag: string)
    requires s.disk.Some?
    ensures Reaches(h, s, EditRuns(h, s, t, b, u, node, etag))
  {
    WatcherIsRun(h, s, t, node);
    SendIsRun(h, s, WatcherRuns(h, s, t, node), b, u, s.nextEntry, s.disk.value.content);
    UploadIsRun(h, s, Sent(WatcherRuns(h, s, t, node), b, u, s.nextEntry, s.disk.value.content), u, etag);
  }

  /**
   From a state with a file the watcher has not yet recorded, whatever its row was: left alone, the edit ends with the
   bytes held by the server, a clean synced row that has their digest as baseline and the confirmed version, and no
   upload of the file waiting.  That is a run of the machine.
   */
  lemma {:induction false} LocalEditArrives(h: Digest, s: Sys, t: nat, b: nat, u: nat, node: Node, etag: string)
    requires s.disk.Some? && !s.readOnly && Logged(s, s.row) && h(s.disk.value.content) != ""
    requires s.row.Some? ==> !(s.row.value.contentHash == h(s.disk.value.content) && s.row.value.status == Synced)
    requires t !in s.threads && u !in s.threads && t != u && b !in s.batches
    ensures var content := s.disk.value.content;
            var s' := EditRuns(h, s, t, b, u, node, etag);
            && Reaches(h, s, s') && s'.disk == s.disk && content in s'.held && s'.row.Some?
            && var r := s'.row.value;
               && !r.dirty && r.status == Synced && Baseline(r) == h(content) && r.etag == etag && r.localEtag == etag
               && Waiting(s'.queue, r.id, Queue.Upload) == {}
  {
    var content := s.disk.value.content;
    WatcherStage(h, s, t, node);
    var ingested := WatcherRuns(h, s, t, node);
    var r := ingested.row.value;
    SendStage(ingested, b, u, s.nextEntry, content);
    var sent := Sent(ingested, b, u, s.nextEntry, content);
    UploadStage(h, sent, u, etag, r);
    NoneWaiting(s.queue, s.nextEntry, r.id);
    EditIsRun(h, s, t, b, u, node, etag);
  }

  lemma {:induction false} NoneWaiting(q: Queue.Table, key: nat, inode: nat)
    ensures var queued := Queue.Enqueue(q, key, inode, Queue.Upload, 0);
            Waiting(MarkClaimed(queued, [key]) - {key}, inode, Queue.Upload) == {}
  {
  }
}
