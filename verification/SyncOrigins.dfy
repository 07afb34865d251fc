/**
 How a row's pending edit ends.  The flag falls in three kinds of statement; in every run, the thread that issues one
 got it from a confirmed upload, from a finished entry of another kind, from a conflict resolution, or from one of the
 four decisions that delete a row: a pruned, a removed, a stale and a rejected file.
 */
module SyncOrigins {
  import opened Options
  import opened CacheRow
  import opened SyncState
  import opened SyncActors
  import opened SyncSafety
  import Queue

  // ---------------------------------------------------------------- statements and events

  /** Of all statements, exactly the mark-synced update of this row and its two deletions end a pending edit. */
  lemma {:induction false} DirtyFallsExactly(s: Sys, op: Op, returned: nat)
    requires RowDirty(s.row)
    ensures !RowDirty(RunOp(s, op, returned).0.row) <==>
              || op.DeleteRow? || (op.DeleteIfRejected? && s.row.value.status == Rejected)
              || (op.SyncedRow? && Resolve(op.target, returned) == s.row.value.id)
  {
    if Plain(op) {
      PlainRow(s, op, returned);
      RowAfterDirty(s.row, op, returned);
    }
  }

  lemma {:induction false} PlainRow(s: Sys, op: Op, returned: nat)
    requires Plain(op)
    ensures RunOp(s, op, returned).0.row == RowAfter(s.row, op, returned)
  {
    var s1 := RunRowOp(s, op, returned);
    QueueOpFrame(s1, op, returned);
    NodeOpFrame(RunQueueOp(s1, op, returned), op, returned);
  }

  lemma {:induction false} RowAfterDirty(row: Option<Row>, op: Op, returned: nat)
    requires RowDirty(row)
    ensures !RowDirty(RowAfter(row, op, returned)) <==> op.SyncedRow? && Resolve(op.target, returned) == row.value.id
  {
  }

  /** The thread has this statement ahead of it. */
  ghost predicate Has(s: Sys, t: nat, op: Op) { t in s.threads && s.threads[t].Script? && op in s.threads[t].ops }

  predicate Ends(op: Op) { op.SyncedRow? || op.DeleteRow? || op.DeleteIfRejected? }

  lemma {:induction false} OnlyScriptsTouchRow(h: Digest, s: Sys, e: Event)
    requires !e.Exec?
    ensures Perform(h, s, e).row == s.row
  {
    if ByProcessor(e) { ProcessorFrame(h, s, e); }
  }

  /** The statement a thread issues next. */
  predicate Issues(s: Sys, t: nat, op: Op) {
    t in s.threads && s.threads[t].Script? && s.threads[t].ops != [] && s.threads[t].ops[0] == op
  }

  /** An event after which the row is no longer dirty issues such a statement. */
  lemma {:induction false} DirtyFallsInScript(h: Digest, s: Sys, e: Event)
    requires RowDirty(s.row) && !RowDirty(Perform(h, s, e).row)
    ensures e.Exec? && exists op :: Issues(s, e.thread, op) && Ends(op)
  {
    if !e.Exec? {
      OnlyScriptsTouchRow(h, s, e);
    } else {
      assert e.thread in s.threads && s.threads[e.thread].Script? && s.threads[e.thread].ops != [];
      var script := s.threads[e.thread];
      DirtyFallsExactly(s, script.ops[0], script.returned);
      assert Issues(s, e.thread, script.ops[0]);
    }
  }

  // ---------------------------------------------------------------- where a statement comes from

  /** A confirmed upload finds the file with the confirmed digest and its node's generation unmoved. */
  ghost predicate SettlesClean(h: Digest, s: Sys, e: Event, t: nat, op: Op) {
    && e.Settle? && e.thread == t
    && t in s.threads && s.threads[t].Script? && s.threads[t].ops == [] && s.threads[t].after.SettleUpload?
    && var a := s.threads[t].after;
       && e.seenDisk.Some? && h(e.seenDisk.value.content) == a.digest && !(a.owner.Some? && e.generationMoved)
       && op == SyncedRow(Id(a.inode), a.etag)
  }

  /** A delete, mkdir or rename entry is done. */
  ghost predicate FinishesOther(s: Sys, e: Event, t: nat, op: Op) {
    && e.TakeOther? && e.thread == t && t !in s.threads && e.done && Ready(s, e.batch)
    && var entry := s.batches[e.batch].todo[0].entry;
       entry.action != Queue.Upload && op == SyncedRow(Id(entry.inode), "")
  }

  /** A conflict is resolved with "remote" or "both", or a row is to be deleted. */
  ghost predicate DecidesDrastically(s: Sys, e: Event, t: nat, op: Op) {
    e.Start? && e.thread == t && t !in s.threads && Drastic(e.seen, e.task, op)
  }

  ghost predicate Launches(h: Digest, s: Sys, e: Event, t: nat, op: Op) {
    SettlesClean(h, s, e, t, op) || FinishesOther(s, e, t, op) || DecidesDrastically(s, e, t, op)
  }

  lemma {:induction false} StartOrigin(h: Digest, s: Sys, e: Event, t: nat, op: Op)
    requires e.Start? && Ends(op) && Has(Perform(h, s, e), t, op) && !Has(s, t, op)
    ensures DecidesDrastically(s, e, t, op)
  {
    DrasticPlanned(h, e.seen, e.task, s.readOnly);
  }

  lemma {:induction false} ExecOrigin(s: Sys, u: nat, t: nat, op: Op)
    requires Has(ExecThread(s, u), t, op)
    ensures Has(s, t, op)
  {
    if u in s.threads && s.threads[u].Script? && s.threads[u].ops != [] {
      OpLeavesHistory(s, s.threads[u].ops[0], s.threads[u].returned);
    }
  }

  /** A step that sets one thread, to no script with such a statement. */
  lemma {:induction false} SetOrigin(s: Sys, s': Sys, u: nat, t: nat, op: Op)
    requires u in s'.threads && s'.threads == s.threads[u := s'.threads[u]]
    requires s'.threads[u].Script? ==> op !in s'.threads[u].ops
    requires Has(s', t, op)
    ensures Has(s, t, op)
  {
  }

  lemma {:induction false} FetchOrigin(s: Sys, u: nat, body: Content, permanent: bool, t: nat, op: Op)
    requires Ends(op) && (Has(FetchThread(s, u, body), t, op) || Has(FetchFailed(s, u, permanent), t, op))
    ensures Has(s, t, op)
  {
  }

  lemma {:induction false} PublishOrigin(h: Digest, s: Sys, u: nat, safe: bool, file: LocalFile, t: nat, op: Op)
    requires Ends(op) && u in s.threads && s.threads[u].Fetched? && Has(PublishThread(h, s, u, safe, file), t, op)
    ensures Has(s, t, op)
  {
    SetOrigin(s, PublishThread(h, s, u, safe, file), u, t, op);
  }

  lemma {:induction false} CommitOrigin(h: Digest, s: Sys, u: nat, t: nat, op: Op)
    requires Ends(op) && u in s.threads && s.threads[u].Published? && Has(CommitThread(h, s, u), t, op)
    ensures Has(s, t, op)
  {
    SetOrigin(s, CommitThread(h, s, u), u, t, op);
  }

  lemma {:induction false} TakeOrigin(s: Sys, b: nat, u: nat, done: bool, permanent: bool, t: nat, op: Op)
    requires Ends(op) && Has(TakeNonUpload(s, b, u, done, permanent), t, op) && !Has(s, t, op)
    ensures FinishesOther(s, TakeOther(b, u, done, permanent), t, op)
  {
    var row := s.batches[b].todo[0];
    FailOnly(row.key, row.entry.inode, OwnerOf(s, row.entry.inode), row.entry.attempts, permanent);
  }

  lemma {:induction false} EndOrigin(s: Sys, b: nat, u: nat, t: nat, op: Op)
    requires Ends(op) && Has(End(s, b, u), t, op)
    ensures Has(s, t, op)
  {
    if End(s, b, u) != s { RequeueOnly(s.batches[b].todo + s.batches[b].held); }
  }

  lemma {:induction false} ReplyOrigin(h: Digest, s: Sys, u: nat, etag: Option<string>, permanent: bool, t: nat, op: Op)
    requires Ends(op) && u in s.threads && s.threads[u].Sending? && Has(ReplyThread(h, s, u, etag, permanent), t, op)
    ensures Has(s, t, op)
  {
    var sent := s.threads[u];
    FailOnly(sent.entry, sent.inode, OwnerOf(s, sent.inode), sent.attempts, permanent);
    if etag.None? || sent.body in s.held { SetOrigin(s, ReplyThread(h, s, u, etag, permanent), u, t, op); }
  }

  lemma {:induction false} SettleOrigin(h: Digest, s: Sys, u: nat, seenDisk: Option<LocalFile>, moved: bool, t: nat,
                                        op: Op)
    requires Ends(op) && Has(SettleThread(h, s, u, seenDisk, moved), t, op) && !Has(s, t, op)
    ensures SettlesClean(h, s, Settle(u, seenDisk, moved), t, op)
  {
  }

  /** A thread that has such a statement had it before, or was given it by this event. */
  lemma {:induction false} StepOrigin(h: Digest, s: Sys, e: Event, t: nat, op: Op)
    requires Ends(op) && Has(Perform(h, s, e), t, op)
    ensures Has(s, t, op) || Launches(h, s, e, t, op)
  {
    if !Has(s, t, op) {
      match e
      case Start(_, _, _) => StartOrigin(h, s, e, t, op);
      case Exec(u) => ExecOrigin(s, u, t, op);
      case Fetch(u, body) => FetchOrigin(s, u, body, false, t, op);
      case FetchFails(u, permanent) => FetchOrigin(s, u, [], permanent, t, op);
      case Publish(u, safe, ident, mtime) =>
        if u in s.threads && s.threads[u].Fetched? { PublishOrigin(h, s, u, safe, LocalFile([], ident, mtime), t, op); }
      case CommitNode(u) => if u in s.threads && s.threads[u].Published? { CommitOrigin(h, s, u, t, op); }
      case TakeOther(b, u, done, permanent) => TakeOrigin(s, b, u, done, permanent, t, op);
      case EndBatch(b, u) => EndOrigin(s, b, u, t, op);
      case Reply(u, etag, permanent) =>
        if u in s.threads && s.threads[u].Sending? { ReplyOrigin(h, s, u, etag, permanent, t, op); }
      case Settle(u, seenDisk, moved) => SettleOrigin(h, s, u, seenDisk, moved, t, op);
      case _ =>
    }
  }

  // ---------------------------------------------------------------- over runs

  /** The j-th event gave the thread this statement, and the thread lives since. */
  ghost predicate OriginAt(h: Digest, s: Sys, events: seq<Event>, j: nat, t: nat, op: Op) {
    j < |events| && Launches(h, At(h, s, events, j), events[j], t, op) && LivesFrom(h, s, events, j + 1, t)
  }

  /** In every run such a statement has an origin. */
  lemma {:induction false} StatementOrigin(h: Digest, s: Sys, events: seq<Event>, t: nat, op: Op)
    requires s.threads == map[] && Ends(op) && Has(Run(h, s, events), t, op)
    ensures exists j: nat :: OriginAt(h, s, events, j, t, op)
  {
    var n := |events| - 1;
    var front := events[..n];
    StepOrigin(h, Run(h, s, front), events[n], t, op);
    if Has(Run(h, s, front), t, op) {
      StatementOrigin(h, s, front, t, op);
      var j: nat :| OriginAt(h, s, front, j, t, op);
      assert events[..j] == front[..j];
      LivesOn(h, s, events, j + 1, t);
      assert OriginAt(h, s, events, j, t, op);
    } else {
      LivesOn(h, s, events, |events|, t);
      assert OriginAt(h, s, events, n, t, op);
    }
  }

  /** The server's confirmation of an upload, which the thread will settle as a. */
  ghost predicate Confirms(h: Digest, s: Sys, e: Event, t: nat, a: After) {
    && e.Reply? && e.thread == t && e.etag.Some?
    && t in s.threads && s.threads[t].Sending? && s.threads[t].body in s.held
    && var u := s.threads[t]; a == SettleUpload(u.entry, u.inode, u.owner, h(u.body), e.etag.value)
  }

  ghost predicate ConfirmedAt(h: Digest, s: Sys, events: seq<Event>, i: nat, t: nat, a: After) {
    i < |events| && Confirms(h, At(h, s, events, i), events[i], t, a) && LivesFrom(h, s, events, i + 1, t)
  }

  ghost predicate WillSettle(s: Sys, t: nat, a: After) {
    a.SettleUpload? && t in s.threads && s.threads[t].Script? && s.threads[t].after == a
  }

  lemma {:induction false} ReplyConfirms(h: Digest, s: Sys, u: nat, etag: Option<string>, permanent: bool, t: nat,
                                         a: After)
    requires u in s.threads && s.threads[u].Sending? && WillSettle(ReplyThread(h, s, u, etag, permanent), t, a)
    ensures WillSettle(s, t, a) || Confirms(h, s, Reply(u, etag, permanent), t, a)
  {
  }

  lemma {:induction false} ExecSettles(s: Sys, u: nat, t: nat, a: After)
    requires WillSettle(ExecThread(s, u), t, a)
    ensures WillSettle(s, t, a)
  {
    if u in s.threads && s.threads[u].Script? && s.threads[u].ops != [] {
      OpLeavesHistory(s, s.threads[u].ops[0], s.threads[u].returned);
    }
  }

  lemma {:induction false} ConfirmStep(h: Digest, s: Sys, e: Event, t: nat, a: After)
    requires WillSettle(Perform(h, s, e), t, a)
    ensures WillSettle(s, t, a) || Confirms(h, s, e, t, a)
  {
    match e
    case Exec(u) => ExecSettles(s, u, t, a);
    case Reply(u, etag, permanent) =>
      if u in s.threads && s.threads[u].Sending? { ReplyConfirms(h, s, u, etag, permanent, t, a); }
    case Publish(u, safe, ident, mtime) =>
      if u in s.threads && s.threads[u].Fetched? {
        PublishFinishes(h, s, u, safe, LocalFile([], ident, mtime), t, a);
      }
    case CommitNode(u) => if u in s.threads && s.threads[u].Published? { CommitFinishes(h, s, u, t, a); }
    case Start(u, seen, task) => StartFinishes(h, s, u, seen, task, t, a);
    case Settle(u, seenDisk, moved) => SettleFinishes(h, s, u, seenDisk, moved, t, a);
    case _ => QuietFinishes(h, s, e, t, a);
  }

  lemma {:induction false} SettleFinishes(h: Digest, s: Sys, u: nat, seenDisk: Option<LocalFile>, moved: bool, t: nat,
                                          a: After)
    requires WillSettle(SettleThread(h, s, u, seenDisk, moved), t, a)
    ensures WillSettle(s, t, a)
  {
  }

  /** The remaining events set no script that has something to follow. */
  lemma {:induction false} QuietFinishes(h: Digest, s: Sys, e: Event, t: nat, a: After)
    requires !e.Exec? && !e.Reply? && !e.Publish? && !e.CommitNode? && !e.Start? && !e.Settle?
    requires WillSettle(Perform(h, s, e), t, a)
    ensures WillSettle(s, t, a)
  {
    if ByProcessor(e) { ProcessorFrame(h, s, e); }
  }

  /** A step that sets one thread to a script with nothing to follow. */
  lemma {:induction false} SetFinishes(s: Sys, s': Sys, u: nat, t: nat, a: After)
    requires u in s'.threads && s'.threads == s.threads[u := s'.threads[u]]
    requires s'.threads[u].Script? ==> s'.threads[u].after == Finish
    requires WillSettle(s', t, a)
    ensures WillSettle(s, t, a)
  {
  }

  lemma {:induction false} PublishFinishes(h: Digest, s: Sys, u: nat, safe: bool, file: LocalFile, t: nat, a: After)
    requires u in s.threads && s.threads[u].Fetched? && WillSettle(PublishThread(h, s, u, safe, file), t, a)
    ensures WillSettle(s, t, a)
  {
    SetFinishes(s, PublishThread(h, s, u, safe, file), u, t, a);
  }

  lemma {:induction false} CommitFinishes(h: Digest, s: Sys, u: nat, t: nat, a: After)
    requires u in s.threads && s.threads[u].Published? && WillSettle(CommitThread(h, s, u), t, a)
    ensures WillSettle(s, t, a)
  {
    SetFinishes(s, CommitThread(h, s, u), u, t, a);
  }

  lemma {:induction false} StartFinishes(h: Digest, s: Sys, u: nat, seen: Seen, task: Task, t: nat, a: After)
    requires WillSettle(StartThread(h, s, u, seen, task), t, a)
    ensures WillSettle(s, t, a)
  {
    var plan, node := MakePlan(h, seen, task, s.readOnly), if task.Walk? then task.node else 0;
    if StartThread(h, s, u, seen, task) != s { LaunchFinishes(s, u, plan, node, seen.At(7).node.etag, t, a); }
  }

  lemma {:induction false} LaunchFinishes(s: Sys, u: nat, plan: Plan, node: nat, etag: string, t: nat, a: After)
    requires WillSettle(Launch(s, u, plan, node, etag), t, a)
    ensures WillSettle(s, t, a)
  {
  }

  /** In every run an upload about to be settled was confirmed by the server, which then held its bytes. */
  lemma {:induction false} SettlingWasConfirmed(h: Digest, s: Sys, events: seq<Event>, t: nat, a: After)
    requires s.threads == map[] && WillSettle(Run(h, s, events), t, a)
    ensures exists i: nat :: ConfirmedAt(h, s, events, i, t, a)
  {
    var n := |events| - 1;
    var front := events[..n];
    ConfirmStep(h, Run(h, s, front), events[n], t, a);
    if WillSettle(Run(h, s, front), t, a) {
      SettlingWasConfirmed(h, s, front, t, a);
      var i: nat :| ConfirmedAt(h, s, front, i, t, a);
      assert events[..i] == front[..i];
      LivesOn(h, s, events, i + 1, t);
      assert ConfirmedAt(h, s, events, i, t, a);
    } else {
      LivesOn(h, s, events, |events|, t);
      assert ConfirmedAt(h, s, events, n, t, a);
    }
  }

  /** The thread, as it lives now, sent an upload that the server confirmed. */
  ghost predicate FollowsUpload(h: Digest, s: Sys, events: seq<Event>, t: nat) {
    exists i: nat, a: After :: ConfirmedAt(h, s, events, i, t, a)
  }

  /** A statement follows a confirmed upload of its thread exactly when a settled upload gave it. */
  lemma {:induction false} OriginIsUpload(h: Digest, s: Sys, events: seq<Event>, j: nat, t: nat, op: Op)
    requires s.threads == map[] && OriginAt(h, s, events, j, t, op)
    ensures events[j].Settle? <==> FollowsUpload(h, s, events, t)
  {
    if events[j].Settle? {
      var a := At(h, s, events, j).threads[t].after;
      SettlingWasConfirmed(h, s, events[..j], t, a);
      var i: nat :| ConfirmedAt(h, s, events[..j], i, t, a);
      LivesLonger(h, s, events, i, j, t, a);
    } else {
      forall i: nat, a: After ensures !ConfirmedAt(h, s, events, i, t, a) { NoUpload(h, s, events, j, t, op, i, a); }
    }
  }

  lemma {:induction false} NoUpload(h: Digest, s: Sys, events: seq<Event>, j: nat, t: nat, op: Op, i: nat, a: After)
    requires OriginAt(h, s, events, j, t, op) && !events[j].Settle?
    ensures !ConfirmedAt(h, s, events, i, t, a)
  {
    if j < i <= |events| { assert At(h, s, events, i).threads[t].Script?; }
    assert t !in At(h, s, events, j).threads;
  }

  lemma {:induction false} LivesLonger(h: Digest, s: Sys, events: seq<Event>, i: nat, j: nat, t: nat, a: After)
    requires j < |events| && ConfirmedAt(h, s, events[..j], i, t, a) && LivesFrom(h, s, events, j + 1, t)
    ensures ConfirmedAt(h, s, events, i, t, a)
  {
    var front := events[..j];
    assert events[..i] == front[..i];
    forall k | i + 1 <= k <= |events|
      ensures t in At(h, s, events, k).threads && At(h, s, events, k).threads[t].Script?
    {
      if k <= j {
        assert events[..k] == front[..k];
        assert At(h, s, events, k) == At(h, s, front, k);
      }
    }
  }

  /**
   Every end of a pending edit has a cause.  In every run, an event after which a dirty row is clean or gone is a
   statement whose thread got it from a settled upload, a finished entry of another kind, a conflict resolved with
   "remote" or "both", or a decision to delete the row; and it follows a confirmed upload exactly in the first case.
   */
  lemma {:induction false} PendingEditEndsByCause(h: Digest, disk: Option<LocalFile>, readOnly: bool,
                                                  events: seq<Event>,
                                                  e: Event)
    requires var s := Run(h, Initial(disk, readOnly), events); RowDirty(s.row) && !RowDirty(Perform(h, s, e).row)
    ensures e.Exec?
    ensures exists j: nat, op: Op ::
              && Issues(Run(h, Initial(disk, readOnly), events), e.thread, op) && Ends(op)
              && OriginAt(h, Initial(disk, readOnly), events, j, e.thread, op)
              && (events[j].Settle? <==> FollowsUpload(h, Initial(disk, readOnly), events, e.thread))
  {
    var init := Initial(disk, readOnly);
    var s := Run(h, init, events);
    DirtyFallsInScript(h, s, e);
    var op :| Issues(s, e.thread, op) && Ends(op);
    assert Has(s, e.thread, op);
    StatementOrigin(h, init, events, e.thread, op);
    var j: nat :| OriginAt(h, init, events, j, e.thread, op);
    OriginIsUpload(h, init, events, j, e.thread, op);
  }

  // ---------------------------------------------------------------- an edit that ends without an upload

  const FILE: LocalFile := LocalFile([1], 1, 1)
  const NODE: Node := Node(0, "", 0, false, false, Synced)

  /** The row the watcher writes for a new file. */
  function NewRow(h: Digest): Row {
    Row(1, THIS_PATH, 1, true, true, false, 0, h([1]), "", "", "", "", Pending)
  }

  /** A new file is written, and its ingestion begins. */
  function Written(h: Digest): Sys { UserChange(Initial(None, false), Some(FILE)) }

  function Ingesting(h: Digest): Sys {
    SetThread(Written(h), 0, Script([UpsertRow(Inode(THIS_PATH, 1, true, true, h([1]), "", "", Pending)),
                                     Enqueue(Returned, Queue.Upload, 0)], 0, Finish))
  }

  function IngestEvents(): seq<Event> {
    [UserWrites([1], 1, 1)] + [Start(0, Seen(None, Some(FILE), NODE), Ingest(true))] + [Exec(0)]
  }

  /** It is removed again, and the watcher acts on that before anything was uploaded. */
  function EditEvents(h: Digest): seq<Event> {
    IngestEvents() + [UserDeletes] + [Start(1, Seen(Some(NewRow(h)), None, NODE), Removed)] + [Exec(1)]
  }

  lemma {:induction false} RunSnoc(h: Digest, s: Sys, events: seq<Event>, e: Event)
    ensures Run(h, s, events + [e]) == Perform(h, Run(h, s, events), e)
  {
    assert (events + [e])[..|events|] == events;
  }

  lemma {:induction false} BeginsIngesting(h: Digest)
    ensures Perform(h, Initial(None, false), UserWrites([1], 1, 1)) == Written(h)
    ensures Perform(h, Written(h), Start(0, Seen(None, Some(FILE), NODE), Ingest(true))) == Ingesting(h)
  {
  }

  lemma {:induction false} RowIsWritten(h: Digest)
    ensures var s := Perform(h, Ingesting(h), Exec(0));
            s.row == Some(NewRow(h)) && NewRow(h) in s.rowLog && s.held == {} && 1 !in s.threads
  {
  }

  /** From a state with that row, removing the file leads to a deletion. */
  lemma {:induction false} RemovalDeletes(h: Digest, s: Sys)
    requires s.row == Some(NewRow(h)) && NewRow(h) in s.rowLog && 1 !in s.threads
    ensures var d := Perform(h, Perform(h, s, UserDeletes), Start(1, Seen(Some(NewRow(h)), None, NODE), Removed));
            && d.row == s.row && d.held == s.held
            && 1 in d.threads && d.threads[1] == Script([DropQueued(Id(1)), DeleteRow], 0, Finish)
  {
  }

  lemma {:induction false} DropRuns(s: Sys)
    requires 1 in s.threads && s.threads[1] == Script([DropQueued(Id(1)), DeleteRow], 0, Finish)
    ensures var d := ExecThread(s, 1);
            && d.row == s.row && d.held == s.held
            && 1 in d.threads && d.threads[1] == Script([DeleteRow], 0, Finish)
  {
    RowOpFrame(s, DropQueued(Id(1)), 0);
  }

  /** The row is there, and nothing was uploaded. */
  ghost predicate Unsent(h: Digest, s: Sys) {
    s.row == Some(NewRow(h)) && NewRow(h) in s.rowLog && s.held == {} && 1 !in s.threads
  }

  lemma {:induction false} IngestRuns(h: Digest)
    ensures Unsent(h, Run(h, Initial(None, false), IngestEvents()))
  {
    RunThree(h, Initial(None, false), [], UserWrites([1], 1, 1), Start(0, Seen(None, Some(FILE), NODE), Ingest(true)),
             Exec(0));
    assert [] + [UserWrites([1], 1, 1)] == [UserWrites([1], 1, 1)];
    BeginsIngesting(h);
    RowIsWritten(h);
  }

  lemma {:induction false} RemovalRuns(h: Digest, s: Sys)
    requires Unsent(h, s)
    ensures var d := Perform(h, Perform(h, Perform(h, s, UserDeletes),
                                        Start(1, Seen(Some(NewRow(h)), None, NODE), Removed)), Exec(1));
            && RowDirty(d.row) && d.held == {} && !RowDirty(Perform(h, d, Exec(1)).row)
  {
    RemovalDeletes(h, s);
    DropRuns(Perform(h, Perform(h, s, UserDeletes), Start(1, Seen(Some(NewRow(h)), None, NODE), Removed)));
  }

  /** A run in which a pending edit ends although the server never held a byte. */
  lemma {:induction false} EditEndsUnsent(h: Digest)
    ensures var s := Run(h, Initial(None, false), EditEvents(h));
            && RowDirty(s.row) && s.held == {} && !RowDirty(Perform(h, s, Exec(1)).row)
  {
    IngestRuns(h);
    RemovalRuns(h, Run(h, Initial(None, false), IngestEvents()));
    RunThree(h, Initial(None, false), IngestEvents(), UserDeletes,
             Start(1, Seen(Some(NewRow(h)), None, NODE), Removed), Exec(1));
  }

  lemma {:induction false} RunThree(h: Digest, s: Sys, front: seq<Event>, a: Event, b: Event, c: Event)
    ensures Run(h, s, front + [a] + [b] + [c]) == Perform(h, Perform(h, Perform(h, Run(h, s, front), a), b), c)
  {
    RunSnoc(h, s, front, a);
    RunSnoc(h, s, front + [a], b);
    RunSnoc(h, s, front + [a] + [b], c);
  }
}
