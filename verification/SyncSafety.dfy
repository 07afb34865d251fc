/**
 Sync mode as an event machine, and what every run of it keeps.

 An event is one atomic step of one actor.  Any number of threads of any kind run at once, an actor may act on row
 values the table held at any earlier time, another one at each of its looks, and a thread may be killed between two
 statements.
 */
module SyncSafety {
  import opened Options
  import opened CacheRow
  import opened SyncState
  import opened SyncActors
  import Queue

  datatype Event =
    | UserWrites(content: Content, ident: nat, mtime: int)
    | UserDeletes
    /** Another client stores a version. */
    | ServerStores(content: Content)
    | Start(thread: nat, seen: Seen, task: Task)
    | Exec(thread: nat)
    | Fetch(thread: nat, body: Content)
    | FetchFails(thread: nat, permanent: bool)
    | Publish(thread: nat, pathSafe: bool, ident: nat, mtime: int)
    | CommitNode(thread: nat)
    /** A processor claims rows, holds one back, hands one to a thread, returns the rest. */
    | ClaimRows(batch: nat, keys: seq<nat>)
    | HoldRow(batch: nat, seenRow: Option<Row>)
    | TakeUpload(batch: nat, thread: nat, body: Content, seenRow: Option<Row>)
    | TakeOther(batch: nat, thread: nat, done: bool, permanent: bool)
    | EndBatch(batch: nat, thread: nat)
    | ServerAccepts(thread: nat)
    | Reply(thread: nat, etag: Option<string>, permanent: bool)
    | Settle(thread: nat, seenDisk: Option<LocalFile>, generationMoved: bool)
    | Cancel(thread: nat)
    | KillBatch(batch: nat)
    | Restart

  /** The digest is collision free and never the empty string. */
  ghost predicate IdealDigest(h: Digest) {
    && (forall a, b :: h(a) == h(b) ==> a == b)
    && (forall a :: h(a) != "")
  }

  /** A start on a folder that may already hold the file, with no cache row. */
  function Initial(disk: Option<LocalFile>, readOnly: bool): Sys {
    Sys(disk, None, 1, map[], 1, readOnly, map[], None, map[], map[], {}, {}, {},
        if disk.Some? then {disk.value.content} else {}, {}, {}, {}, {})
  }

  /** The user's own file operations. */
  function UserChange(s: Sys, next: Option<LocalFile>): Sys {
    s.(disk := next,
       local := s.local + (if next.Some? then {next.value.content} else {}),
       replaced := s.replaced + (if s.disk.Some? then {s.disk.value.content} else {}))
  }

  function SetThread(s: Sys, t: nat, thread: Thread): Sys { s.(threads := s.threads[t := thread]) }

  function StartThread(h: Digest, s: Sys, t: nat, seen: Seen, task: Task): Sys {
    if t in s.threads || !Logged(s, seen.row) || exists i :: 0 <= i < |seen.more| && !Logged(s, seen.more[i].row) then s
    else Launch(s, t, MakePlan(h, seen, task, s.readOnly), if task.Walk? then task.node else 0, seen.At(7).node.etag)
  }

  /** A row value the table held at some time, or none. */
  predicate Logged(s: Sys, row: Option<Row>) { row.Some? ==> row.value in s.rowLog }

  function Launch(s: Sys, t: nat, plan: Plan, node: nat, etag: string): Sys {
    match plan
    case Statements(ops) => SetThread(s, t, Script(ops, 0, Finish))
    case Download(before) => SetThread(s, t, Fetching(node, etag, before))
  }

  /** One statement; a rename that finds no file aborts its script. */
  function ExecThread(s: Sys, t: nat): Sys {
    if t !in s.threads || !s.threads[t].Script? || s.threads[t].ops == [] then s
    else
      var script := s.threads[t];
      if script.ops[0] == KeepCopy && s.disk.None? then SetThread(s, t, Script([], script.returned, Finish))
      else
        var (s', returned) := RunOp(s, script.ops[0], script.returned);
        SetThread(s', t, Script(script.ops[1..], returned, script.after))
  }

  /** validateDownloadPublication and the rename it guards, as one step (downloader.go:317-321). */
  function PublishThread(h: Digest, s: Sys, t: nat, pathSafe: bool, file: LocalFile): Sys
    requires t in s.threads && s.threads[t].Fetched?
  {
    var d := s.threads[t];
    if d.node !in s.nodes || s.nodes[d.node].etag != d.etag then SetThread(s, t, Script([], 0, Finish))
    else
      var id := s.nodes[d.node].id;
      if !pathSafe || !SameState(h, d.before, s.disk) || RowDirty(RowById(s.row, id)) then
        SetThread(s, t, Script(Conflicted(d.node, id).ops, 0, Finish))
      else
        SetThread(s.(disk := Some(file.(content := d.body)), local := s.local + {d.body}),
                  t, Published(d.node, d.etag, d.body))
  }

  function CommitThread(h: Digest, s: Sys, t: nat): Sys
    requires t in s.threads && s.threads[t].Published?
  {
    var d := s.threads[t];
    if d.node !in s.nodes then SetThread(s, t, Script([], 0, Finish))
    else
      var n := s.nodes[d.node];
      SetThread(s.(nodes := s.nodes[d.node := n.(cached := n.etag == d.etag, size := |d.body|)]),
                t, Script(CommitOps(h, n.id, d.body, d.etag, n.etag != d.etag), 0, Finish))
  }

  function OwnerOf(s: Sys, inode: nat): Option<nat> {
    if s.attached.Some? && s.attached.value in s.nodes && s.nodes[s.attached.value].id == inode
    then s.attached else None
  }

  /** DequeueWriteback: waiting rows, each once. */
  predicate Claimable(s: Sys, keys: seq<nat>) {
    && (forall i :: 0 <= i < |keys| ==> keys[i] in s.queue && s.queue[keys[i]].state == Queue.Waiting)
    && (forall i, j :: 0 <= i < j < |keys| ==> keys[i] != keys[j])
  }

  function Tickets(q: Queue.Table, keys: seq<nat>): seq<Ticket>
    requires forall k :: k in keys ==> k in q
  {
    if keys == [] then [] else [Ticket(keys[0], q[keys[0]])] + Tickets(q, keys[1..])
  }

  function MarkClaimed(q: Queue.Table, keys: seq<nat>): Queue.Table {
    map k | k in q :: if k in keys then q[k].(state := Queue.InProgress) else q[k]
  }

  function Claim(s: Sys, b: nat, keys: seq<nat>): Sys {
    if b in s.batches || !Claimable(s, keys) then s
    else s.(queue := MarkClaimed(s.queue, keys), batches := s.batches[b := Batch(Tickets(s.queue, keys), [], None)])
  }

  /** The thread of the current row is done, or was killed. */
  predicate Idle(s: Sys, b: Batch) {
    b.current.Some? && b.current.value in s.threads ==>
      var thread := s.threads[b.current.value]; thread.Script? && thread.ops == [] && thread.after == Finish
  }

  predicate Ready(s: Sys, b: nat) { b in s.batches && Idle(s, s.batches[b]) && s.batches[b].todo != [] }

  /** heldByConflict, on the row as it was read. */
  predicate Holds(e: Queue.Entry, seenRow: Option<Row>) {
    e.action == Queue.Upload && seenRow.Some? && seenRow.value.status == Conflict
  }

  function Hold(s: Sys, b: nat, seenRow: Option<Row>): Sys {
    if !Ready(s, b) || !Holds(s.batches[b].todo[0].entry, seenRow) then s
    else
      var batch := s.batches[b];
      s.(batches := s.batches[b := Batch(batch.todo[1..], batch.held + [batch.todo[0]], None)])
  }

  /** The rest of the batch once its first row went to thread t. */
  function Advance(s: Sys, b: nat, t: nat): Sys
    requires Ready(s, b)
  {
    s.(batches := s.batches[b := Batch(s.batches[b].todo[1..], s.batches[b].held, Some(t))])
  }

  function Take(s: Sys, b: nat, t: nat, body: Content, seenRow: Option<Row>): Sys {
    if t in s.threads || !Ready(s, b) || s.batches[b].todo[0].entry.action != Queue.Upload
       || Holds(s.batches[b].todo[0].entry, seenRow) then s
    else
      var row := s.batches[b].todo[0];
      SetThread(Advance(s, b, t), t,
                Sending(row.key, row.entry.inode, OwnerOf(s, row.entry.inode), row.entry.attempts, body))
  }

  /** The statements after a delete, mkdir or rename. */
  function OtherOps(s: Sys, row: Ticket, done: bool, permanent: bool): seq<Op> {
    if done then [RemoveEntry(row.key), SyncedRow(Id(row.entry.inode), "")]
    else FailOps(row.key, row.entry.inode, OwnerOf(s, row.entry.inode), row.entry.attempts, permanent)
  }

  function TakeNonUpload(s: Sys, b: nat, t: nat, done: bool, permanent: bool): Sys {
    if t in s.threads || !Ready(s, b) || s.batches[b].todo[0].entry.action == Queue.Upload then s
    else
      SetThread(Advance(s, b, t), t, Script(OtherOps(s, s.batches[b].todo[0], done, permanent), 0, Finish))
  }

  /** The end of a batch, or its deadline: what was not looked at and what was held goes back. */
  function End(s: Sys, b: nat, t: nat): Sys {
    if t in s.threads || b !in s.batches || !Idle(s, s.batches[b]) then s
    else
      var batch := s.batches[b];
      SetThread(s.(batches := s.batches - {b}), t, Script(RequeueOps(batch.todo + batch.held), 0, Finish))
  }

  /** The claimed rows a thread still has to finish. */
  function Unfinished(thread: Thread): set<nat> {
    match thread
    case Sending(entry, _, _, _, _) => {entry}
    case Script(ops, _, _) => set i | 0 <= i < |ops| && (ops[i].RemoveEntry? || ops[i].UpdateEntry?) :: ops[i].entry
    case _ => {}
  }

  function Held(batch: Batch): set<nat> {
    set i | 0 <= i < |batch.todo + batch.held| :: (batch.todo + batch.held)[i].key
  }

  function Kill(s: Sys, t: nat): Sys {
    if t !in s.threads then s else s.(threads := s.threads - {t}, lost := s.lost + Unfinished(s.threads[t]))
  }

  function KillProcessor(s: Sys, b: nat): Sys {
    if b !in s.batches then s else s.(batches := s.batches - {b}, lost := s.lost + Held(s.batches[b]))
  }

  /** The end of an upload attempt; a confirmation implies that the server stored the bytes. */
  function ReplyThread(h: Digest, s: Sys, t: nat, etag: Option<string>, permanent: bool): Sys
    requires t in s.threads && s.threads[t].Sending?
  {
    var u := s.threads[t];
    match etag
    case Some(e) =>
      if u.body !in s.held then s
      else SetThread(s, t, Script(RecordUploadOps(u.entry, u.inode, h(u.body), e), 0,
                                  SettleUpload(u.entry, u.inode, u.owner, h(u.body), e)))
    case None =>
      SetThread(s, t, Script(FailOps(u.entry, u.inode, OwnerOf(s, u.inode), u.attempts, permanent), 0, Finish))
  }

  function Restarted(s: Sys): Sys {
    s.(threads := map[], batches := map[], nodes := map[], attached := None, lost := {},
       queue := Queue.RequeueInProgress(s.queue))
  }

  function SettleThread(h: Digest, s: Sys, t: nat, seenDisk: Option<LocalFile>, moved: bool): Sys {
    if t in s.threads && s.threads[t].Script? && s.threads[t].ops == [] && s.threads[t].after.SettleUpload?
    then SetThread(s, t, Script(SettleOps(h, s.threads[t].after, seenDisk, moved), 0, Finish)) else s
  }

  function FetchThread(s: Sys, t: nat, body: Content): Sys {
    if t in s.threads && s.threads[t].Fetching? && body in s.held
    then SetThread(s, t, Fetched(s.threads[t].node, s.threads[t].etag, s.threads[t].before, body)) else s
  }

  function FetchFailed(s: Sys, t: nat, permanent: bool): Sys {
    if t in s.threads && s.threads[t].Fetching? then
      var n := s.threads[t].node;
      var ops := if permanent && n in s.nodes then [StatusRow(Id(s.nodes[n].id), Failed)] else [];
      SetThread(s, t, Script(ops, 0, Finish))
    else s
  }

  /** One event; an event whose guard fails changes nothing. */
  function Perform(h: Digest, s: Sys, e: Event): Sys {
    match e
    case UserWrites(c, ident, mtime) => UserChange(s, Some(LocalFile(c, ident, mtime)))
    case UserDeletes => UserChange(s, None)
    case ServerStores(c) => s.(held := s.held + {c})
    case Start(t, seen, task) => StartThread(h, s, t, seen, task)
    case Exec(t) => ExecThread(s, t)
    case Fetch(t, body) => FetchThread(s, t, body)
    case FetchFails(t, permanent) => FetchFailed(s, t, permanent)
    case Publish(t, safe, ident, mtime) =>
      if t in s.threads && s.threads[t].Fetched?
      then PublishThread(h, s, t, safe, LocalFile([], ident, mtime)) else s
    case CommitNode(t) => if t in s.threads && s.threads[t].Published? then CommitThread(h, s, t) else s
    case ClaimRows(b, keys) => Claim(s, b, keys)
    case HoldRow(b, seenRow) => Hold(s, b, seenRow)
    case TakeUpload(b, t, body, seenRow) => Take(s, b, t, body, seenRow)
    case TakeOther(b, t, done, permanent) => TakeNonUpload(s, b, t, done, permanent)
    case EndBatch(b, t) => End(s, b, t)
    case ServerAccepts(t) =>
      if t in s.threads && s.threads[t].Sending? then s.(held := s.held + {s.threads[t].body}) else s
    case Reply(t, etag, permanent) =>
      if t in s.threads && s.threads[t].Sending? then ReplyThread(h, s, t, etag, permanent) else s
    case Settle(t, seenDisk, moved) => SettleThread(h, s, t, seenDisk, moved)
    case Cancel(t) => Kill(s, t)
    case KillBatch(b) => KillProcessor(s, b)
    case Restart => Restarted(s)
  }

  function Run(h: Digest, s: Sys, events: seq<Event>): Sys {
    if events == [] then s
    else Perform(h, Run(h, s, events[..|events| - 1]), events[|events| - 1])
  }

  // ---------------------------------------------------------------- the invariant

  /** The digest is absent, or it is that of bytes the server has held. */
  ghost predicate Known(h: Digest, held: set<Content>, x: string) {
    x == "" || exists c :: c in held && h(c) == x
  }

  ghost predicate SafeRow(h: Digest, held: set<Content>, r: Row) {
    Known(h, held, r.localHash) && Known(h, held, r.downloadBaseline)
  }

  ghost predicate SafeOp(h: Digest, held: set<Content>, op: Op) {
    match op
    case UpsertRow(inode) => Known(h, held, inode.localHash)
    case LocalContent(_, x) => Known(h, held, x)
    case LocalContentFor(_, x, _) => Known(h, held, x)
    case _ => true
  }

  ghost predicate SafeOps(h: Digest, held: set<Content>, ops: seq<Op>) {
    forall op :: op in ops ==> SafeOp(h, held, op)
  }

  ghost predicate SafeThread(h: Digest, held: set<Content>, t: Thread) {
    match t
    case Script(ops, _, _) => SafeOps(h, held, ops)
    case Fetching(_, _, before) => before.Some? ==> Known(h, held, before.value.hash)
    case Fetched(_, _, before, body) => body in held && (before.Some? ==> Known(h, held, before.value.hash))
    case Published(_, _, body) => body in held
    case Sending(_, _, _, _, _) => true
  }

  /** A content that once was in the local file and where it can be found now. */
  ghost predicate Accounted(s: Sys, c: Content) {
    || (s.disk.Some? && s.disk.value.content == c)
    || c in s.held || c in s.trash || c in s.copies
    || c in s.replaced || c in s.discarded
  }

  ghost predicate BaselinesKnown(h: Digest, s: Sys) {
    && (forall r :: r in s.rowLog ==> SafeRow(h, s.held, r))
    && (s.row.Some? ==> s.row.value in s.rowLog)
    && (forall t :: t in s.threads ==> SafeThread(h, s.held, s.threads[t]))
  }

  ghost predicate Conserved(s: Sys) {
    && (s.disk.Some? ==> s.disk.value.content in s.local)
    && (forall c :: c in s.local ==> Accounted(s, c))
  }

  ghost predicate Inv(h: Digest, s: Sys) { BaselinesKnown(h, s) && Conserved(s) }

  // ---------------------------------------------------------------- statements

  /** Row, queue and node statements touch nothing else. */
  lemma {:induction false} RowOpFrame(s: Sys, op: Op, returned: nat)
    ensures var s' := RunRowOp(s, op, returned); s' == s.(row := s'.row, rowLog := s'.rowLog)
  {}

  lemma {:induction false} QueueOpFrame(s: Sys, op: Op, returned: nat)
    ensures var s' := RunQueueOp(s, op, returned); s' == s.(queue := s'.queue, nextEntry := s'.nextEntry)
  {}

  lemma {:induction false} NodeOpFrame(s: Sys, op: Op, returned: nat)
    ensures var s' := RunNodeOp(s, op, returned); s' == s.(nodes := s'.nodes, attached := s'.attached)
  {}

  lemma {:induction false} UpdatedIsSafe(h: Digest, held: set<Content>, op: Op, r: Row)
    requires SafeRow(h, held, r) && SafeOp(h, held, op)
    ensures SafeRow(h, held, Updated(op, r))
  {}

  lemma {:induction false} RowOpKeeps(h: Digest, s: Sys, op: Op, returned: nat)
    requires Inv(h, s) && SafeOp(h, s.held, op)
    ensures Inv(h, RunRowOp(s, op, returned))
    ensures RunRowOp(s, op, returned).(row := s.row, rowLog := s.rowLog) == s
  {
    var s' := RunRowOp(s, op, returned);
    if s.row.Some? { UpdatedIsSafe(h, s.held, op, s.row.value); }
    assert forall c :: Accounted(s, c) ==> Accounted(s', c);
  }

  /** A step that leaves the file, the rows, the server and the histories alone keeps the invariant. */
  lemma {:induction false} FrameKeeps(h: Digest, s: Sys, s': Sys)
    requires Inv(h, s)
    requires s' == s.(queue := s'.queue, nextEntry := s'.nextEntry, nodes := s'.nodes, attached := s'.attached,
                      threads := s'.threads, batches := s'.batches, lost := s'.lost)
    requires forall t :: t in s'.threads ==> SafeThread(h, s.held, s'.threads[t])
    ensures Inv(h, s')
  {
    assert forall c :: Accounted(s, c) ==> Accounted(s', c);
  }

  lemma {:induction false} UpsertKeeps(h: Digest, s: Sys, inode: Inode, returned: nat)
    requires Inv(h, s) && SafeOp(h, s.held, UpsertRow(inode))
    ensures Inv(h, RunOp(s, UpsertRow(inode), returned).0)
  {
    assert SafeRow(h, s.held, Upsert(s.row, s.nextRow, inode));
    assert forall c :: Accounted(s, c) ==> Accounted(RunOp(s, UpsertRow(inode), returned).0, c);
  }

  lemma {:induction false} FileOpKeeps(h: Digest, s: Sys, op: Op)
    requires Inv(h, s) && (op.TrashLocal? || op.KeepCopy? || op.DiscardLocal?)
    ensures Inv(h, TakeLocal(s, op))
  {
    assert forall c :: Accounted(s, c) ==> Accounted(TakeLocal(s, op), c);
  }

  lemma {:induction false} PlainOpKeeps(h: Digest, s: Sys, op: Op, returned: nat)
    requires Inv(h, s) && SafeOp(h, s.held, op)
    ensures Inv(h, RunPlainOp(s, op, returned))
    ensures RunPlainOp(s, op, returned).held == s.held && RunPlainOp(s, op, returned).threads == s.threads
  {
    var s1 := RunRowOp(s, op, returned);
    RowOpKeeps(h, s, op, returned);
    var s2 := RunQueueOp(s1, op, returned);
    QueueOpFrame(s1, op, returned);
    NodeOpFrame(s2, op, returned);
    FrameKeeps(h, s1, RunNodeOp(s2, op, returned));
  }

  lemma {:induction false} OpKeeps(h: Digest, s: Sys, op: Op, returned: nat)
    requires Inv(h, s) && SafeOp(h, s.held, op)
    ensures Inv(h, RunOp(s, op, returned).0)
    ensures RunOp(s, op, returned).0.held == s.held && RunOp(s, op, returned).0.threads == s.threads
  {
    if op.UpsertRow? { UpsertKeeps(h, s, op.inode, returned); }
    else if op.DeleteRow? || op.DeleteIfRejected? {
      assert forall c :: Accounted(s, c) ==> Accounted(s.(row := None), c);
    }
    else if op.TrashLocal? || op.KeepCopy? || op.DiscardLocal? { FileOpKeeps(h, s, op); }
    else { PlainOpKeeps(h, s, op, returned); }
  }

  // ---------------------------------------------------------------- decisions

  ghost predicate SeenSafe(h: Digest, held: set<Content>, seen: Seen) {
    forall k: nat :: seen.At(k).row.Some? ==> SafeRow(h, held, seen.At(k).row.value)
  }

  ghost predicate SafePlan(h: Digest, held: set<Content>, p: Plan) {
    match p
    case Statements(ops) => SafeOps(h, held, ops)
    case Download(before) => before.Some? ==> Known(h, held, before.value.hash)
  }

  /** The statement removes no file outright, ends no pending edit and touches no claimed queue row. */
  predicate Mild(op: Op) {
    && !op.DiscardLocal? && !op.SyncedRow? && !op.DeleteRow? && !op.DeleteIfRejected?
    && !op.RemoveEntry? && !op.UpdateEntry?
  }

  ghost predicate Gentle(p: Plan) { p.Statements? ==> forall op :: op in p.ops ==> Mild(op) }

  lemma {:induction false} BeginSafe(h: Digest, held: set<Content>, seen: Seen, node: nat)
    ensures var p := BeginDownload(h, node, seen);
            Gentle(p) && (SeenSafe(h, held, seen) ==> SafePlan(h, held, p))
  {}

  lemma {:induction false} ProtectSafe(h: Digest, held: set<Content>, seen: Seen, node: nat, valid: bool)
    ensures var guarded := ProtectCollision(h, node, seen, valid);
            guarded.Some? ==> Gentle(guarded.value) && SafePlan(h, held, guarded.value)
  {}

  lemma {:induction false} WalkSafe(h: Digest, held: set<Content>, seen: Seen, node: nat, initial: bool, due: bool,
                                    valid: bool)
    ensures var p := PlanWalk(h, seen, node, initial, due, valid);
            Gentle(p) && (SeenSafe(h, held, seen) ==> SafePlan(h, held, p))
  {
    BeginSafe(h, held, seen, node);
    ProtectSafe(h, held, seen, node, valid);
  }

  lemma {:induction false} HealSafe(h: Digest, held: set<Content>, seen: Seen, valid: bool, withheld: bool,
                                    dlFailed: bool, inFlight: bool)
    ensures var p := PlanHeal(h, seen, valid, withheld, dlFailed, inFlight);
            Gentle(p) && (SeenSafe(h, held, seen) ==> SafePlan(h, held, p))
  {
    if seen.disk.Some? && seen.row.Some? {
      var size := |seen.disk.value.content|;
      assert seen.At(0).row == seen.row;
      RequeueSafe(h, held, seen.row.value, size, valid, inFlight);
      HealSyncedSafe(h, held, seen.row.value, seen.At(1).row, seen.At(1).disk, size, valid, inFlight);
    }
  }

  lemma {:induction false} RequeueSafe(h: Digest, held: set<Content>, r: Row, size: nat, valid: bool, inFlight: bool)
    ensures var p := RequeueUpload(r, size, valid, inFlight);
            Gentle(p) && (SafeRow(h, held, r) ==> SafePlan(h, held, p))
  {}

  lemma {:induction false} HealSyncedSafe(h: Digest, held: set<Content>, r: Row, state: Option<Row>,
                                          f: Option<LocalFile>, size: nat, valid: bool, inFlight: bool)
    ensures var p := PlanHealSynced(h, r, state, f, size, valid, inFlight);
            && Gentle(p)
            && (SafeRow(h, held, r) && (state.Some? ==> SafeRow(h, held, state.value)) ==> SafePlan(h, held, p))
  {
    RequeueSafe(h, held, r, size, valid, inFlight);
  }

  /** The plans that supply no digest at all. */
  ghost predicate Silent(op: Op) {
    !op.LocalContentFor? && (op.UpsertRow? ==> op.inode.localHash == "") && (op.LocalContent? ==> op.hash == "")
  }

  lemma {:induction false} SilentOpsSafe(h: Digest, held: set<Content>, p: Plan)
    requires p.Statements? && forall op :: op in p.ops ==> Silent(op)
    ensures SafePlan(h, held, p)
  {}

  /** What a conflict resolution may do beyond mild statements. */
  predicate Resolves(seen: Seen, choice: Choice, op: Op) {
    || (op.DiscardLocal? && choice == KeepRemote)
    || (op.SyncedRow? && choice != KeepLocal && seen.row.Some? && op == SyncedRow(Id(seen.row.value.id), ""))
  }

  lemma {:induction false} DaemonSafe(h: Digest, held: set<Content>, seen: Seen, choice: Choice, n: Option<nat>,
                                      readOnly: bool)
    ensures SafePlan(h, held, PlanResolve(seen, choice, n, readOnly))
    ensures SafePlan(h, held, PlanRetry(seen, n))
    ensures forall op :: op in PlanResolve(seen, choice, n, readOnly).ops ==> Mild(op) || Resolves(seen, choice, op)
    ensures Gentle(PlanRetry(seen, n))
  {
    ResolveOpsAre(seen, choice, n, readOnly);
    SilentOpsSafe(h, held, PlanResolve(seen, choice, n, readOnly));
    SilentOpsSafe(h, held, PlanRetry(seen, n));
  }

  lemma {:induction false} ResolveOpsAre(seen: Seen, choice: Choice, n: Option<nat>, readOnly: bool)
    ensures var p := PlanResolve(seen, choice, n, readOnly);
            p.Statements? && forall op :: op in p.ops ==> Silent(op) && (Mild(op) || Resolves(seen, choice, op))
  {
    var p := PlanResolve(seen, choice, n, readOnly);
    forall i | 0 <= i < |p.ops| ensures Silent(p.ops[i]) && (Mild(p.ops[i]) || Resolves(seen, choice, p.ops[i])) {
      assert |SetNode(n, Synced, false)| <= 1 && |SetNode(n, Pending, true)| <= 1;
    }
  }

  lemma {:induction false} PollSafe(h: Digest, held: set<Content>, seen: Seen, n: nat, etag: string, drifted: bool,
                                    size: Option<nat>)
    ensures SafePlan(h, held, PlanPollEntry(seen, n, etag, drifted, size))
    ensures Gentle(PlanPollEntry(seen, n, etag, drifted, size))
  {
    SilentOpsSafe(h, held, PlanPollEntry(seen, n, etag, drifted, size));
  }

  /** Whatever values an actor acts on, its statements only record digests the server has held. */
  lemma {:induction false} PlanSafe(h: Digest, held: set<Content>, seen: Seen, task: Task, readOnly: bool)
    requires SeenSafe(h, held, seen)
    ensures SafePlan(h, held, MakePlan(h, seen, task, readOnly))
  {
    match task
    case Walk(n, initial, due, valid) => WalkSafe(h, held, seen, n, initial, due, valid);
    case Heal(valid, withheld, dlFailed, inFlight) => HealSafe(h, held, seen, valid, withheld, dlFailed, inFlight);
    case ResolveConflict(choice, n) => DaemonSafe(h, held, seen, choice, n, readOnly);
    case RetryFailed(n) => DaemonSafe(h, held, seen, KeepLocal, n, readOnly);
    case PollEntry(n, etag, drifted, size) => PollSafe(h, held, seen, n, etag, drifted, size);
    case _ => SilentOpsSafe(h, held, MakePlan(h, seen, task, readOnly));
  }

  // ---------------------------------------------------------------- events

  lemma {:induction false} KnownGrows(h: Digest, held: set<Content>, more: set<Content>)
    requires held <= more
    ensures forall x :: Known(h, held, x) ==> Known(h, more, x)
  {}

  lemma {:induction false} HeldGrows(h: Digest, s: Sys, more: set<Content>)
    requires Inv(h, s) && s.held <= more
    ensures Inv(h, s.(held := more))
  {
    KnownGrows(h, s.held, more);
    assert forall op :: SafeOp(h, s.held, op) ==> SafeOp(h, more, op);
    assert forall c :: Accounted(s, c) ==> Accounted(s.(held := more), c);
  }

  /** The central step: the file a publication replaces holds bytes the server has held. */
  lemma {:induction false} PublishReplacesHeldBytes(h: Digest, s: Sys, t: nat, pathSafe: bool, file: LocalFile)
    requires IdealDigest(h) && Inv(h, s) && t in s.threads && s.threads[t].Fetched?
    ensures var s' := PublishThread(h, s, t, pathSafe, file);
            && Inv(h, s')
            && (s.disk.Some? && s'.disk != s.disk ==> s.disk.value.content in s.held)
  {
    var s' := PublishThread(h, s, t, pathSafe, file);
    assert SafeThread(h, s.held, s.threads[t]);
    if s'.disk == s.disk && s'.local == s.local {
      FrameKeeps(h, s, s');
    } else {
      assert forall c :: Accounted(s, c) ==> Accounted(s', c);
    }
  }

  lemma {:induction false} LaunchKeeps(h: Digest, s: Sys, t: nat, plan: Plan, node: nat, etag: string)
    requires Inv(h, s) && SafePlan(h, s.held, plan)
    ensures Inv(h, Launch(s, t, plan, node, etag))
  {
    FrameKeeps(h, s, Launch(s, t, plan, node, etag));
  }

  lemma {:induction false} StartKeeps(h: Digest, s: Sys, t: nat, seen: Seen, task: Task)
    requires Inv(h, s)
    ensures Inv(h, StartThread(h, s, t, seen, task))
  {
    if StartThread(h, s, t, seen, task) != s {
      forall k: nat | seen.At(k).row.Some? ensures SafeRow(h, s.held, seen.At(k).row.value) {
        assert Logged(s, seen.At(k).row);
      }
      PlanSafe(h, s.held, seen, task, s.readOnly);
      LaunchKeeps(h, s, t, MakePlan(h, seen, task, s.readOnly), if task.Walk? then task.node else 0,
                  seen.At(7).node.etag);
    }
  }

  lemma {:induction false} ExecKeeps(h: Digest, s: Sys, t: nat)
    requires Inv(h, s)
    ensures Inv(h, ExecThread(s, t))
  {
    if t in s.threads && s.threads[t].Script? && s.threads[t].ops != [] {
      var script := s.threads[t];
      assert SafeThread(h, s.held, script);
      if script.ops[0] == KeepCopy && s.disk.None? {
        FrameKeeps(h, s, ExecThread(s, t));
      } else {
        OpKeeps(h, s, script.ops[0], script.returned);
        FrameKeeps(h, RunOp(s, script.ops[0], script.returned).0, ExecThread(s, t));
      }
    }
  }

  /** Replacing one thread, with any change to queue and nodes. */
  lemma {:induction false} ThreadKeeps(h: Digest, s: Sys, s': Sys, t: nat)
    requires Inv(h, s) && t in s'.threads && SafeThread(h, s.held, s'.threads[t])
    requires s' == s.(queue := s'.queue, nodes := s'.nodes, threads := s.threads[t := s'.threads[t]])
    ensures Inv(h, s')
  {
    FrameKeeps(h, s, s');
  }

  lemma {:induction false} FetchKeeps(h: Digest, s: Sys, t: nat, body: Content, permanent: bool)
    requires Inv(h, s)
    ensures Inv(h, FetchThread(s, t, body)) && Inv(h, FetchFailed(s, t, permanent))
  {
    if t in s.threads && s.threads[t].Fetching? {
      assert SafeThread(h, s.held, s.threads[t]);
      if body in s.held { ThreadKeeps(h, s, FetchThread(s, t, body), t); }
      ThreadKeeps(h, s, FetchFailed(s, t, permanent), t);
    }
  }

  lemma {:induction false} CommitKeeps(h: Digest, s: Sys, t: nat)
    requires Inv(h, s) && t in s.threads && s.threads[t].Published?
    ensures Inv(h, CommitThread(h, s, t))
  {
    var d := s.threads[t];
    assert SafeThread(h, s.held, d);
    if d.node in s.nodes { CommitSafe(h, s.held, s.nodes[d.node], d.body, d.etag); }
    ThreadKeeps(h, s, CommitThread(h, s, t), t);
  }

  lemma {:induction false} CommitSafe(h: Digest, held: set<Content>, n: Node, body: Content, etag: string)
    requires body in held
    ensures SafeOps(h, held, CommitOps(h, n.id, body, etag, n.etag != etag))
  {
  }

  /** A processor's steps: claim, hold, take and end. */
  predicate ByProcessor(e: Event) { e.ClaimRows? || e.HoldRow? || e.TakeUpload? || e.TakeOther? || e.EndBatch? }

  lemma {:induction false} RequeueOnly(tickets: seq<Ticket>)
    ensures forall op :: op in RequeueOps(tickets) ==> op.UpdateEntry?
  {
    if tickets != [] { RequeueOnly(tickets[1..]); }
  }

  lemma {:induction false} FailOnly(entry: nat, inode: nat, owner: Option<nat>, attempts: nat, permanent: bool)
    ensures forall op :: op in FailOps(entry, inode, owner, attempts, permanent) ==>
              op.UpdateEntry? || op.StatusRow? || op.UpdateNode?
  {
  }

  /** A processor's step changes queue and batches, and may start a thread it hands a row or the returns to. */
  ghost predicate ProcessorStep(s: Sys, s': Sys, t: nat) {
    && s' == s.(queue := s'.queue, batches := s'.batches, threads := s'.threads)
    && (s'.threads == s.threads
        || (t !in s.threads && t in s'.threads && s'.threads == s.threads[t := s'.threads[t]] && Handed(s'.threads[t])))
  }

  lemma {:induction false} TakeOtherFrame(s: Sys, b: nat, t: nat, done: bool, permanent: bool)
    ensures ProcessorStep(s, TakeNonUpload(s, b, t, done, permanent), t)
  {
    if TakeNonUpload(s, b, t, done, permanent) != s {
      var row := s.batches[b].todo[0];
      FailOnly(row.key, row.entry.inode, OwnerOf(s, row.entry.inode), row.entry.attempts, permanent);
    }
  }

  lemma {:induction false} EndFrame(s: Sys, b: nat, t: nat)
    ensures ProcessorStep(s, End(s, b, t), t)
  {
    if b in s.batches { RequeueOnly(s.batches[b].todo + s.batches[b].held); }
  }

  lemma {:induction false} TakeFrame(s: Sys, b: nat, t: nat, body: Content, seenRow: Option<Row>, keys: seq<nat>)
    ensures ProcessorStep(s, Take(s, b, t, body, seenRow), t)
    ensures ProcessorStep(s, Hold(s, b, seenRow), t) && ProcessorStep(s, Claim(s, b, keys), t)
  {
  }

  /** What a processor hands to a thread: an upload to send, or statements that neither discard nor record digests. */
  lemma {:induction false} ProcessorFrame(h: Digest, s: Sys, e: Event)
    requires ByProcessor(e)
    ensures var t := if e.TakeUpload? || e.TakeOther? || e.EndBatch? then e.thread else 0;
            ProcessorStep(s, Perform(h, s, e), t)
  {
    match e
    case ClaimRows(b, keys) => TakeFrame(s, b, 0, [], None, keys);
    case HoldRow(b, seenRow) => TakeFrame(s, b, 0, [], seenRow, []);
    case TakeUpload(b, t, body, seenRow) => TakeFrame(s, b, t, body, seenRow, []);
    case TakeOther(b, t, done, permanent) => TakeOtherFrame(s, b, t, done, permanent);
    case EndBatch(b, t) => EndFrame(s, b, t);
  }

  ghost predicate Handed(thread: Thread) {
    || thread.Sending?
    || (thread.Script? && thread.after == Finish
        && forall op :: op in thread.ops ==>
             op.RemoveEntry? || op.UpdateEntry? || op.SyncedRow? || op.StatusRow? || op.UpdateNode?)
  }

  lemma {:induction false} ProcessorEventKeeps(h: Digest, s: Sys, e: Event)
    requires Inv(h, s) && ByProcessor(e)
    ensures Inv(h, Perform(h, s, e))
  {
    ProcessorFrame(h, s, e);
    FrameKeeps(h, s, Perform(h, s, e));
  }

  lemma {:induction false} SettleKeeps(h: Digest, s: Sys, t: nat, seenDisk: Option<LocalFile>, moved: bool)
    requires Inv(h, s)
    ensures Inv(h, SettleThread(h, s, t, seenDisk, moved))
  {
    if SettleThread(h, s, t, seenDisk, moved) != s {
      SilentOpsSafe(h, s.held, Statements(SettleOps(h, s.threads[t].after, seenDisk, moved)));
      ThreadKeeps(h, s, SettleThread(h, s, t, seenDisk, moved), t);
    }
  }

  lemma {:induction false} RecordSafe(h: Digest, held: set<Content>, entry: nat, inode: nat, body: Content,
                                      etag: string)
    requires body in held
    ensures SafeOps(h, held, RecordUploadOps(entry, inode, h(body), etag))
  {}

  lemma {:induction false} ReplyKeeps(h: Digest, s: Sys, t: nat, etag: Option<string>, permanent: bool)
    requires Inv(h, s) && t in s.threads && s.threads[t].Sending?
    ensures Inv(h, ReplyThread(h, s, t, etag, permanent))
  {
    var u := s.threads[t];
    FailOnly(u.entry, u.inode, OwnerOf(s, u.inode), u.attempts, permanent);
    if etag.None? || u.body in s.held {
      if etag.Some? { RecordSafe(h, s.held, u.entry, u.inode, u.body, etag.value); }
      ThreadKeeps(h, s, ReplyThread(h, s, t, etag, permanent), t);
    }
  }

  lemma {:induction false} UserKeeps(h: Digest, s: Sys, next: Option<LocalFile>)
    requires Inv(h, s)
    ensures Inv(h, UserChange(s, next))
  {
    assert forall c :: Accounted(s, c) ==> Accounted(UserChange(s, next), c);
  }

  /** Every event keeps the invariant. */
  lemma {:induction false} PerformKeeps(h: Digest, s: Sys, e: Event)
    requires IdealDigest(h) && Inv(h, s)
    ensures Inv(h, Perform(h, s, e))
  {
    if e.Fetch? || e.FetchFails? || e.Publish? || e.CommitNode? || e.ServerAccepts? || e.Reply? || e.Settle? {
      TransferKeeps(h, s, e);
    } else {
      match e
      case UserWrites(c, ident, mtime) => UserKeeps(h, s, Some(LocalFile(c, ident, mtime)));
      case UserDeletes => UserKeeps(h, s, None);
      case ServerStores(c) => HeldGrows(h, s, s.held + {c});
      case Start(t, seen, task) => StartKeeps(h, s, t, seen, task);
      case Exec(t) => ExecKeeps(h, s, t);
      case Cancel(t) => FrameKeeps(h, s, Kill(s, t));
      case KillBatch(b) => FrameKeeps(h, s, KillProcessor(s, b));
      case Restart => FrameKeeps(h, s, Restarted(s));
      case _ => ProcessorEventKeeps(h, s, e);
    }
  }

  /** The steps of a download or an upload under way. */
  lemma {:induction false} TransferKeeps(h: Digest, s: Sys, e: Event)
    requires IdealDigest(h) && Inv(h, s)
    requires e.Fetch? || e.FetchFails? || e.Publish? || e.CommitNode? || e.ServerAccepts? || e.Reply? || e.Settle?
    ensures Inv(h, Perform(h, s, e))
  {
    match e
    case Fetch(t, body) => FetchKeeps(h, s, t, body, false);
    case FetchFails(t, permanent) => FetchKeeps(h, s, t, [], permanent);
    case Publish(t, safe, ident, mtime) =>
      if t in s.threads && s.threads[t].Fetched? {
        PublishReplacesHeldBytes(h, s, t, safe, LocalFile([], ident, mtime));
      }
    case CommitNode(t) => if t in s.threads && s.threads[t].Published? { CommitKeeps(h, s, t); }
    case ServerAccepts(t) =>
      if t in s.threads && s.threads[t].Sending? { HeldGrows(h, s, s.held + {s.threads[t].body}); }
    case Reply(t, etag, permanent) =>
      if t in s.threads && s.threads[t].Sending? { ReplyKeeps(h, s, t, etag, permanent); }
    case Settle(t, seenDisk, moved) => SettleKeeps(h, s, t, seenDisk, moved);
  }

  /** Every run keeps the invariant. */
  lemma {:induction false} RunKeeps(h: Digest, s: Sys, events: seq<Event>)
    requires IdealDigest(h) && Inv(h, s)
    ensures Inv(h, Run(h, s, events))
  {
    if events != [] {
      RunKeeps(h, s, events[..|events| - 1]);
      PerformKeeps(h, Run(h, s, events[..|events| - 1]), events[|events| - 1]);
    }
  }

  // ---------------------------------------------------------------- what a run means for the user

  predicate ByUser(e: Event) { e.UserWrites? || e.UserDeletes? }

  predicate ChoosesRemote(e: Event) {
    e.Start? && e.task.ResolveConflict? && e.task.choice == KeepRemote
  }

  /** The state before the i-th event of a run from an initial state. */
  function At(h: Digest, s: Sys, events: seq<Event>, i: nat): Sys
    requires i <= |events|
  {
    Run(h, s, events[..i])
  }

  ghost predicate UserReplaced(h: Digest, s: Sys, events: seq<Event>, i: nat, c: Content) {
    && i < |events| && ByUser(events[i])
    && At(h, s, events, i).disk.Some? && At(h, s, events, i).disk.value.content == c
  }

  lemma {:induction false} OpLeavesHistory(s: Sys, op: Op, returned: nat)
    ensures var s' := RunOp(s, op, returned).0;
            && s'.replaced == s.replaced && s'.threads == s.threads
            && (op != DiscardLocal ==> s'.discarded == s.discarded)
  {
    var s1 := RunRowOp(s, op, returned);
    RowOpFrame(s, op, returned);
    var s2 := RunQueueOp(s1, op, returned);
    QueueOpFrame(s1, op, returned);
    NodeOpFrame(s2, op, returned);
  }

  lemma {:induction false} OnlyTheUserReplaces(h: Digest, s: Sys, e: Event)
    requires !ByUser(e)
    ensures Perform(h, s, e).replaced == s.replaced
  {
    if e.Exec? && e.thread in s.threads && s.threads[e.thread].Script? && s.threads[e.thread].ops != [] {
      OpLeavesHistory(s, s.threads[e.thread].ops[0], s.threads[e.thread].returned);
    }
  }

  /** What the run counts as replaced by the user was in the file when a user event happened. */
  lemma {:induction false} ReplacedByUser(h: Digest, s: Sys, events: seq<Event>, c: Content)
    requires s.replaced == {} && c in Run(h, s, events).replaced
    ensures exists i: nat :: UserReplaced(h, s, events, i, c)
  {
    var n := |events| - 1;
    var front := events[..n];
    if c in Run(h, s, front).replaced {
      ReplacedByUser(h, s, front, c);
      var i: nat :| UserReplaced(h, s, front, i, c);
      assert events[..i] == front[..i];
      assert UserReplaced(h, s, events, i, c);
    } else {
      if !ByUser(events[n]) { OnlyTheUserReplaces(h, Run(h, s, front), events[n]); }
      assert UserReplaced(h, s, events, n, c);
    }
  }

  /** The thread is about to remove the file outright. */
  ghost predicate Discards(s: Sys, t: nat) {
    t in s.threads && s.threads[t].Script? && DiscardLocal in s.threads[t].ops
  }

  /** Where a plan may end the row's pending edit or remove the file: four ways to delete a row, and resolutions. */
  predicate Drastic(seen: Seen, task: Task, op: Op) {
    || ((task.PollPrune? || task.Removed? || task.CleanStale?) && op.DeleteRow?)
    || (task.CleanRejected? && op.DeleteIfRejected?)
    || (task.ResolveConflict? && Resolves(seen, task.choice, op))
  }

  lemma {:induction false} DrasticPlanned(h: Digest, seen: Seen, task: Task, readOnly: bool)
    ensures var p := MakePlan(h, seen, task, readOnly);
            p.Statements? ==> forall op :: op in p.ops ==> Mild(op) || Drastic(seen, task, op)
  {
    match task
    case Walk(n, initial, due, valid) => WalkSafe(h, {}, seen, n, initial, due, valid);
    case Heal(valid, withheld, dlFailed, inFlight) => HealSafe(h, {}, seen, valid, withheld, dlFailed, inFlight);
    case ResolveConflict(choice, n) => DaemonSafe(h, {}, seen, choice, n, readOnly);
    case RetryFailed(n) => DaemonSafe(h, {}, seen, KeepLocal, n, readOnly);
    case PollEntry(n, etag, drifted, size) => PollSafe(h, {}, seen, n, etag, drifted, size);
    case _ =>
  }

  /** A step that sets one thread, to no script with that statement. */
  lemma {:induction false} DiscardsAfterSet(s: Sys, s': Sys, u: nat, t: nat)
    requires u in s'.threads && s'.threads == s.threads[u := s'.threads[u]]
    requires s'.threads[u].Script? ==> DiscardLocal !in s'.threads[u].ops
    requires Discards(s', t)
    ensures Discards(s, t)
  {}

  lemma {:induction false} DiscardsAfterReply(h: Digest, s: Sys, u: nat, etag: Option<string>, permanent: bool, t: nat)
    requires u in s.threads && s.threads[u].Sending? && Discards(ReplyThread(h, s, u, etag, permanent), t)
    ensures Discards(s, t)
  {
    var sent := s.threads[u];
    FailOnly(sent.entry, sent.inode, OwnerOf(s, sent.inode), sent.attempts, permanent);
    if etag.None? || sent.body in s.held { DiscardsAfterSet(s, ReplyThread(h, s, u, etag, permanent), u, t); }
  }

  lemma {:induction false} DiscardsAfterPublish(h: Digest, s: Sys, u: nat, safe: bool, file: LocalFile, t: nat)
    requires u in s.threads && s.threads[u].Fetched? && Discards(PublishThread(h, s, u, safe, file), t)
    ensures Discards(s, t)
  {
    DiscardsAfterSet(s, PublishThread(h, s, u, safe, file), u, t);
  }

  lemma {:induction false} DiscardsAfterCommit(h: Digest, s: Sys, u: nat, t: nat)
    requires u in s.threads && s.threads[u].Published? && Discards(CommitThread(h, s, u), t)
    ensures Discards(s, t)
  {
    DiscardsAfterSet(s, CommitThread(h, s, u), u, t);
  }

  lemma {:induction false} DiscardsAfterSettle(h: Digest, s: Sys, u: nat, seenDisk: Option<LocalFile>, moved: bool,
                                               t: nat)
    requires Discards(SettleThread(h, s, u, seenDisk, moved), t)
    ensures Discards(s, t)
  {}

  lemma {:induction false} DiscardsAfterStart(h: Digest, s: Sys, u: nat, seen: Seen, task: Task, t: nat)
    requires Discards(StartThread(h, s, u, seen, task), t) && !Discards(s, t)
    ensures task.ResolveConflict? && task.choice == KeepRemote && u == t && t !in s.threads
  {
    DrasticPlanned(h, seen, task, s.readOnly);
  }

  lemma {:induction false} DiscardsAfterExec(s: Sys, u: nat, t: nat)
    requires Discards(ExecThread(s, u), t)
    ensures Discards(s, t)
  {
    if u in s.threads && s.threads[u].Script? && s.threads[u].ops != [] {
      OpLeavesHistory(s, s.threads[u].ops[0], s.threads[u].returned);
    }
  }

  /** Only a choice of "remote" gives a thread that statement. */
  lemma {:induction false} DiscardsAfter(h: Digest, s: Sys, e: Event, t: nat)
    requires Discards(Perform(h, s, e), t)
    ensures Discards(s, t) || (ChoosesRemote(e) && e.thread == t && t !in s.threads)
  {
    match e
    case Start(u, seen, task) => if !Discards(s, t) { DiscardsAfterStart(h, s, u, seen, task, t); }
    case Exec(u) => DiscardsAfterExec(s, u, t);
    case Publish(u, safe, ident, mtime) =>
      if u in s.threads && s.threads[u].Fetched? {
        DiscardsAfterPublish(h, s, u, safe, LocalFile([], ident, mtime), t);
      }
    case CommitNode(u) => if u in s.threads && s.threads[u].Published? { DiscardsAfterCommit(h, s, u, t); }
    case Reply(u, etag, permanent) =>
      if u in s.threads && s.threads[u].Sending? { DiscardsAfterReply(h, s, u, etag, permanent, t); }
    case Settle(u, seenDisk, moved) => DiscardsAfterSettle(h, s, u, seenDisk, moved, t);
    case _ => DiscardsAfterRest(h, s, e, t);
  }

  lemma {:induction false} DiscardsAfterRest(h: Digest, s: Sys, e: Event, t: nat)
    requires !e.Start? && !e.Exec? && !e.Publish? && !e.CommitNode? && !e.Reply? && !e.Settle?
    requires Discards(Perform(h, s, e), t)
    ensures Discards(s, t)
  {
    if ByProcessor(e) { ProcessorFrame(h, s, e); }
  }

  /** From the i-th state to the end of the run the thread is there, with a script. */
  ghost predicate LivesFrom(h: Digest, s: Sys, events: seq<Event>, i: nat, t: nat) {
    forall k :: i <= k <= |events| ==> t in At(h, s, events, k).threads && At(h, s, events, k).threads[t].Script?
  }

  lemma {:induction false} LivesOn(h: Digest, s: Sys, events: seq<Event>, i: nat, t: nat)
    requires events != [] && t in Run(h, s, events).threads && Run(h, s, events).threads[t].Script?
    requires i == |events| || LivesFrom(h, s, events[..|events| - 1], i, t)
    ensures LivesFrom(h, s, events, i, t)
  {
    var n := |events| - 1;
    forall k | i <= k <= |events|
      ensures t in At(h, s, events, k).threads && At(h, s, events, k).threads[t].Script?
    {
      if k == |events| {
        assert events[..k] == events;
      } else {
        assert events[..k] == events[..n][..k];
        assert At(h, s, events, k) == At(h, s, events[..n], k);
      }
    }
  }

  /** The thread was started by the j-th event, in which the user chose "remote", and lives since. */
  ghost predicate ChoiceAt(h: Digest, s: Sys, events: seq<Event>, j: nat, t: nat) {
    && j < |events| && ChoosesRemote(events[j]) && events[j].thread == t
    && t !in At(h, s, events, j).threads && LivesFrom(h, s, events, j + 1, t)
  }

  ghost predicate ChoseRemote(h: Digest, s: Sys, events: seq<Event>, t: nat) {
    exists j: nat :: ChoiceAt(h, s, events, j, t)
  }

  lemma {:induction false} DiscardsByChoice(h: Digest, s: Sys, events: seq<Event>, t: nat)
    requires s.threads == map[] && Discards(Run(h, s, events), t)
    ensures ChoseRemote(h, s, events, t)
  {
    var n := |events| - 1;
    var front := events[..n];
    DiscardsAfter(h, Run(h, s, front), events[n], t);
    if Discards(Run(h, s, front), t) {
      DiscardsByChoice(h, s, front, t);
      var j: nat :| ChoiceAt(h, s, front, j, t);
      assert events[..j] == front[..j];
      LivesOn(h, s, events, j + 1, t);
      assert ChoiceAt(h, s, events, j, t);
    } else {
      LivesOn(h, s, events, |events|, t);
      assert ChoiceAt(h, s, events, n, t);
    }
  }

  lemma {:induction false} OnlyChoiceDiscards(h: Digest, s: Sys, e: Event)
    ensures Perform(h, s, e).discarded == s.discarded
            || (&& e.Exec? && Discards(s, e.thread) && s.disk.Some?
                && Perform(h, s, e).discarded == s.discarded + {s.disk.value.content})
  {
    if e.Exec? {
      ExecDiscards(s, e.thread);
    } else if ByProcessor(e) {
      ProcessorFrame(h, s, e);
    }
  }

  lemma {:induction false} ExecDiscards(s: Sys, t: nat)
    ensures ExecThread(s, t).discarded == s.discarded
            || (&& Discards(s, t) && s.disk.Some?
                && ExecThread(s, t).discarded == s.discarded + {s.disk.value.content})
  {
    if t in s.threads && s.threads[t].Script? && s.threads[t].ops != [] {
      OpLeavesHistory(s, s.threads[t].ops[0], s.threads[t].returned);
    }
  }

  /** The i-th event removed c from the file because the user had chosen "remote". */
  ghost predicate UserDiscarded(h: Digest, s: Sys, events: seq<Event>, i: nat, c: Content) {
    && i < |events| && events[i].Exec? && ChoseRemote(h, s, events[..i], events[i].thread)
    && At(h, s, events, i).disk.Some? && At(h, s, events, i).disk.value.content == c
  }

  lemma {:induction false} DiscardedByUser(h: Digest, s: Sys, events: seq<Event>, c: Content)
    requires s.discarded == {} && s.threads == map[] && c in Run(h, s, events).discarded
    ensures exists i: nat :: UserDiscarded(h, s, events, i, c)
  {
    var n := |events| - 1;
    var front := events[..n];
    OnlyChoiceDiscards(h, Run(h, s, front), events[n]);
    if c in Run(h, s, front).discarded {
      DiscardedByUser(h, s, front, c);
      var i: nat :| UserDiscarded(h, s, front, i, c);
      assert events[..i] == front[..i];
      assert UserDiscarded(h, s, events, i, c);
    } else {
      DiscardsByChoice(h, s, front, events[n].thread);
      assert UserDiscarded(h, s, events, n, c);
    }
  }

  /** Only the user, a publication and statements touch the local file. */
  lemma {:induction false} OthersLeaveFile(h: Digest, s: Sys, e: Event)
    requires !ByUser(e) && !e.Exec? && !e.Publish?
    ensures Perform(h, s, e).disk == s.disk
  {
    if ByProcessor(e) { ProcessorFrame(h, s, e); }
  }

  lemma {:induction false} ExecMovesFile(h: Digest, s: Sys, t: nat)
    ensures var s' := ExecThread(s, t);
            || s'.disk == s.disk
            || (&& s.disk.Some?
                && (s.disk.value.content in s'.trash || s.disk.value.content in s'.copies || Discards(s, t)))
  {
    if t in s.threads && s.threads[t].Script? && s.threads[t].ops != [] {
      var op, returned := s.threads[t].ops[0], s.threads[t].returned;
      RowOpFrame(s, op, returned);
      QueueOpFrame(RunRowOp(s, op, returned), op, returned);
      NodeOpFrame(RunQueueOp(RunRowOp(s, op, returned), op, returned), op, returned);
    }
  }

  /**
   No automatic step destroys bytes the server never held.  In every reachable state, an event that is not the
   user's own file operation and takes the local file's bytes away finds them held by the server, or puts them in
   the trash or in a conflict copy, or carries out the user's choice of "remote".
   */
  lemma {:induction false} AutomaticStepKeepsBytes(h: Digest, disk: Option<LocalFile>, readOnly: bool,
                                                   events: seq<Event>, e: Event)
    requires IdealDigest(h) && !ByUser(e)
    ensures var s := Run(h, Initial(disk, readOnly), events);
            var s' := Perform(h, s, e);
            s.disk.Some? && s'.disk != s.disk ==>
              var c := s.disk.value.content;
              || c in s.held || c in s'.trash || c in s'.copies
              || (e.Exec? && ChoseRemote(h, Initial(disk, readOnly), events, e.thread))
  {
    var s := Run(h, Initial(disk, readOnly), events);
    if e.Exec? {
      ExecMovesFile(h, s, e.thread);
      if Discards(s, e.thread) { DiscardsByChoice(h, Initial(disk, readOnly), events, e.thread); }
    } else if e.Publish? {
      DownloadsReplaceHeldBytes(h, disk, readOnly, events, e);
    } else {
      OthersLeaveFile(h, s, e);
    }
  }

  /**
   The same over whole runs: a content that ever was in the local file is still there, or the server has held it,
   or it lies in the trash or in a conflict copy, or the user replaced, removed or discarded it while it was there.
   */
  lemma {:induction false} LocalBytesSurvive(h: Digest, disk: Option<LocalFile>, readOnly: bool, events: seq<Event>,
                                             c: Content)
    requires IdealDigest(h)
    requires c in Run(h, Initial(disk, readOnly), events).local
    ensures var s := Run(h, Initial(disk, readOnly), events);
            || (s.disk.Some? && s.disk.value.content == c)
            || c in s.held || c in s.trash || c in s.copies
            || (exists i: nat :: UserReplaced(h, Initial(disk, readOnly), events, i, c))
            || (exists i: nat :: UserDiscarded(h, Initial(disk, readOnly), events, i, c))
  {
    var init := Initial(disk, readOnly);
    RunKeeps(h, init, events);
    var s := Run(h, init, events);
    if c in s.replaced {
      ReplacedByUser(h, init, events, c);
    } else if c in s.discarded {
      DiscardedByUser(h, init, events, c);
    }
  }

  /** In every run, the baseline a download compares the local file with is the digest of held bytes. */
  lemma {:induction false} BaselineIsHeld(h: Digest, disk: Option<LocalFile>, readOnly: bool, events: seq<Event>)
    requires IdealDigest(h)
    ensures var s := Run(h, Initial(disk, readOnly), events);
            BaselineOf(s.row) != "" ==> exists c :: c in s.held && h(c) == BaselineOf(s.row)
  {
    RunKeeps(h, Initial(disk, readOnly), events);
    var s := Run(h, Initial(disk, readOnly), events);
    if s.row.Some? { assert SafeRow(h, s.held, s.row.value); }
  }

  /** In every run, the bytes a download publication replaces are bytes the server has held. */
  lemma {:induction false} DownloadsReplaceHeldBytes(h: Digest, disk: Option<LocalFile>, readOnly: bool,
                                                     events: seq<Event>, e: Event)
    requires IdealDigest(h) && e.Publish?
    ensures var s := Run(h, Initial(disk, readOnly), events);
            s.disk.Some? && Perform(h, s, e).disk != s.disk ==> s.disk.value.content in s.held
  {
    RunKeeps(h, Initial(disk, readOnly), events);
    var s := Run(h, Initial(disk, readOnly), events);
    if e.thread in s.threads && s.threads[e.thread].Fetched? {
      PublishReplacesHeldBytes(h, s, e.thread, e.pathSafe, LocalFile([], e.ident, e.mtime));
    }
  }
}
