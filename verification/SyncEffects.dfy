/**
 What each decision achieves.  A task that starts from the state as it is and is not disturbed runs its statements to
 their end; here is what they leave, in terms of file, row, queue and node.
 */
module SyncEffects {
  import opened Options
  import opened CacheRow
  import opened SyncState
  import opened SyncActors
  import opened SyncSafety
  import opened SyncProgress
  import Queue

  // ---------------------------------------------------------------- whole scripts

  /** Everything statements act on. */
  datatype Scene = Scene(disk: Option<LocalFile>, row: Option<Row>, nextRow: nat, queue: Queue.Table, next: nat,
                         nodes: map<nat, Node>, attached: Option<nat>, trash: set<Content>, copies: set<Content>,
                         discarded: set<Content>)

  function SceneOf(s: Sys): Scene {
    Scene(s.disk, s.row, s.nextRow, s.queue, s.nextEntry, s.nodes, s.attached, s.trash, s.copies, s.discarded)
  }

  /** Where a rename takes the file. */
  function FileAfter(c: Scene, op: Op): Scene {
    if c.disk.None? then c
    else
      var content := c.disk.value.content;
      match op
      case TrashLocal => c.(disk := None, trash := c.trash + {content})
      case KeepCopy => c.(disk := None, copies := c.copies + {content})
      case DiscardLocal => c.(disk := None, discarded := c.discarded + {content})
      case _ => c
  }

  function SceneAfter(c: Scene, readOnly: bool, op: Op, returned: nat): (Scene, nat) {
    match op
    case UpsertRow(inode) =>
      var r := Upsert(c.row, c.nextRow, inode);
      (c.(row := Some(r), nextRow := if c.row.None? then c.nextRow + 1 else c.nextRow), r.id)
    case DeleteRow => (c.(row := None), returned)
    case DeleteIfRejected =>
      (if c.row.Some? && c.row.value.status == Rejected then c.(row := None) else c, returned)
    case AttachNode(n, _) =>
      var attached := if n in c.nodes then c.attached else Some(n);
      (c.(nodes := NodesAfter(c.nodes, op, returned), attached := attached), returned)
    case DetachNode => (c.(attached := None), returned)
    case _ =>
      var (queue, next) := QueueAfter(c.queue, c.next, readOnly, op, returned);
      (FileAfter(c, op).(row := RowAfter(c.row, op, returned), queue := queue, next := next,
                         nodes := NodesAfter(c.nodes, op, returned)), returned)
  }

  function Played(c: Scene, readOnly: bool, ops: seq<Op>, returned: nat): (Scene, nat)
    decreases |ops|
  {
    if ops == [] then (c, returned)
    else
      var (c', returned') := SceneAfter(c, readOnly, ops[0], returned);
      Played(c', readOnly, ops[1..], returned')
  }

  lemma {:induction false} OpPlays(s: Sys, op: Op, returned: nat)
    ensures var (s', next) := RunOp(s, op, returned);
            && (SceneOf(s'), next) == SceneAfter(SceneOf(s), s.readOnly, op, returned)
            && s'.threads == s.threads && s'.held == s.held && s'.readOnly == s.readOnly
  {
    if Plain(op) { PlainPlays(s, op, returned); }
  }

  lemma {:induction false} PlainPlays(s: Sys, op: Op, returned: nat)
    requires Plain(op)
    ensures var s' := RunPlainOp(s, op, returned);
            && (SceneOf(s'), returned) == SceneAfter(SceneOf(s), s.readOnly, op, returned)
            && s'.threads == s.threads && s'.held == s.held && s'.readOnly == s.readOnly
  {
    var s1 := RunRowOp(s, op, returned);
    RowPlays(s, op, returned);
    QueuePlays(s1, op, returned);
    NodePlays(RunQueueOp(s1, op, returned), op, returned);
  }

  lemma {:induction false} RowPlays(s: Sys, op: Op, returned: nat)
    ensures var s' := RunRowOp(s, op, returned);
            && SceneOf(s') == SceneOf(s).(row := RowAfter(s.row, op, returned))
            && s'.threads == s.threads && s'.held == s.held && s'.readOnly == s.readOnly
  {
  }

  lemma {:induction false} QueuePlays(s: Sys, op: Op, returned: nat)
    ensures var s' := RunQueueOp(s, op, returned);
            var (queue, next) := QueueAfter(s.queue, s.nextEntry, s.readOnly, op, returned);
            && SceneOf(s') == SceneOf(s).(queue := queue, next := next)
            && s'.threads == s.threads && s'.held == s.held && s'.readOnly == s.readOnly
  {
  }

  lemma {:induction false} NodePlays(s: Sys, op: Op, returned: nat)
    ensures var s' := RunNodeOp(s, op, returned);
            && SceneOf(s') == SceneOf(s).(nodes := NodesAfter(s.nodes, op, returned), attached := s'.attached)
            && s'.threads == s.threads && s'.held == s.held && s'.readOnly == s.readOnly
            && (!op.AttachNode? && !op.DetachNode? ==> s'.attached == s.attached)
  {
  }

  /** No rename to a copy finds the file gone. */
  predicate Unaborted(c: Scene, ops: seq<Op>) {
    forall i :: 0 <= i < |ops| && ops[i] == KeepCopy ==> i == 0 && c.disk.Some?
  }

  /** The statements of a thread take effect one after the other. */
  lemma {:induction false} ScriptPlays(h: Digest, was: Sys, s: Sys, t: nat, ops: seq<Op>, returned: nat)
    requires t in s.threads && s.threads[t] == Script(ops, returned, Finish) && Unaborted(SceneOf(s), ops)
    requires Reaches(h, was, s)
    ensures var s' := ExecMany(s, t, |ops|);
            && SceneOf(s') == Played(SceneOf(s), s.readOnly, ops, returned).0 && s'.held == s.held
            && Reaches(h, was, s') && t in s'.threads && s'.threads[t].Script?
    decreases |ops|
  {
    if ops != [] {
      UnabortedRest(SceneOf(s), ops);
      StepPlays(h, was, s, t, ops, returned);
      ScriptPlays(h, was, ExecThread(s, t), t, ops[1..], RunOp(s, ops[0], returned).1);
    }
  }

  lemma {:induction false} UnabortedRest(c: Scene, ops: seq<Op>)
    requires ops != [] && Unaborted(c, ops)
    ensures ops[0] == KeepCopy ==> c.disk.Some?
    ensures forall c1 :: Unaborted(c1, ops[1..])
  {
    assert forall i :: 0 <= i < |ops[1..]| ==> ops[1..][i] == ops[i + 1];
  }

  lemma {:induction false} StepPlays(h: Digest, was: Sys, s: Sys, t: nat, ops: seq<Op>, returned: nat)
    requires t in s.threads && s.threads[t] == Script(ops, returned, Finish) && ops != []
    requires (ops[0] == KeepCopy ==> s.disk.Some?) && Reaches(h, was, s)
    ensures var s', next := ExecThread(s, t), RunOp(s, ops[0], returned).1;
            && Reaches(h, was, s') && t in s'.threads && s'.threads[t] == Script(ops[1..], next, Finish)
            && (SceneOf(s'), next) == SceneAfter(SceneOf(s), s.readOnly, ops[0], returned)
            && s'.held == s.held && s'.readOnly == s.readOnly
  {
    OpPlays(s, ops[0], returned);
    OneMore(h, was, s, Exec(t));
  }

  /** A task that looks at the state as it is, run to the end of its statements. */
  function Effect(h: Digest, s: Sys, t: nat, node: Node, task: Task): Sys {
    var started := StartThread(h, s, t, Seen(s.row, s.disk, node), task);
    if t in started.threads && started.threads[t].Script? then ExecMany(started, t, |started.threads[t].ops|)
    else started
  }

  ghost predicate CanStart(s: Sys, t: nat) { t !in s.threads && Logged(s, s.row) }

  lemma {:induction false} TaskPlays(h: Digest, s: Sys, t: nat, node: Node, task: Task)
    requires CanStart(s, t) && MakePlan(h, Seen(s.row, s.disk, node), task, s.readOnly).Statements?
    requires Unaborted(SceneOf(s), MakePlan(h, Seen(s.row, s.disk, node), task, s.readOnly).ops)
    ensures var ops := MakePlan(h, Seen(s.row, s.disk, node), task, s.readOnly).ops;
            var s' := Effect(h, s, t, node, task);
            && SceneOf(s') == Played(SceneOf(s), s.readOnly, ops, 0).0 && s'.held == s.held && Reaches(h, s, s')
            && t in s'.threads && s'.threads[t].Script?
  {
    var seen := Seen(s.row, s.disk, node);
    var ops := MakePlan(h, seen, task, s.readOnly).ops;
    var started := StartThread(h, s, t, seen, task);
    assert started == SetThread(s, t, Script(ops, 0, Finish));
    ReachesItself(h, s);
    OneMore(h, s, s, Start(t, seen, task));
    ScriptPlays(h, s, started, t, ops, 0);
  }

  lemma {:induction false} PlayOne(c: Scene, readOnly: bool, a: Op, returned: nat)
    ensures Played(c, readOnly, [a], returned) == SceneAfter(c, readOnly, a, returned)
  {
    assert [a][1..] == [];
  }

  lemma {:induction false} PlayCons(c: Scene, readOnly: bool, a: Op, rest: seq<Op>, returned: nat)
    ensures var (c1, r1) := SceneAfter(c, readOnly, a, returned);
            Played(c, readOnly, [a] + rest, returned) == Played(c1, readOnly, rest, r1)
  {
    assert ([a] + rest)[1..] == rest && ([a] + rest)[0] == a;
  }

  lemma {:induction false} PlayTwo(c: Scene, readOnly: bool, a: Op, b: Op, returned: nat)
    ensures var (c1, r1) := SceneAfter(c, readOnly, a, returned);
            Played(c, readOnly, [a, b], returned) == SceneAfter(c1, readOnly, b, r1)
  {
    assert [a, b] == [a] + [b];
    PlayCons(c, readOnly, a, [b], returned);
    var (c1, r1) := SceneAfter(c, readOnly, a, returned);
    PlayOne(c1, readOnly, b, r1);
  }

  lemma {:induction false} PlayConcat(c: Scene, readOnly: bool, xs: seq<Op>, ys: seq<Op>, returned: nat)
    ensures var (c1, r1) := Played(c, readOnly, xs, returned);
            Played(c, readOnly, xs + ys, returned) == Played(c1, readOnly, ys, r1)
    decreases |xs|
  {
    if xs == [] {
      assert xs + ys == ys;
    } else {
      assert (xs + ys)[1..] == xs[1..] + ys && (xs + ys)[0] == xs[0];
      var (c1, r1) := SceneAfter(c, readOnly, xs[0], returned);
      PlayConcat(c1, readOnly, xs[1..], ys, r1);
    }
  }

  lemma {:induction false} PlayThree(c: Scene, readOnly: bool, a: Op, b: Op, d: Op, returned: nat)
    ensures var (c1, r1) := SceneAfter(c, readOnly, a, returned);
            var (c2, r2) := SceneAfter(c1, readOnly, b, r1);
            Played(c, readOnly, [a, b, d], returned) == SceneAfter(c2, readOnly, d, r2)
  {
    assert [a, b, d] == [a] + [b, d];
    PlayCons(c, readOnly, a, [b, d], returned);
    var (c1, r1) := SceneAfter(c, readOnly, a, returned);
    PlayTwo(c1, readOnly, b, d, r1);
  }

  // ---------------------------------------------------------------- what is queued

  /** Exactly one such entry waits, the new one. */
  ghost predicate WaitsAlone(q: Queue.Table, id: nat, action: Queue.Action, key: nat) {
    && key in q && q[key] == Queue.Entry(id, action, 0, 0, Queue.Waiting)
    && forall k :: k in q && q[k].inode == id && q[k].action == action && q[k].state == Queue.Waiting ==> k == key
  }

  ghost predicate OthersKept(q: Queue.Table, q': Queue.Table, id: nat) {
    && (forall k :: k in q && q[k].inode != id ==> k in q' && q'[k] == q[k])
    && (forall k :: k in q' && q'[k].inode != id ==> k in q && q'[k] == q[k])
  }

  /** The new upload is the one that waits; a read-only mount queues none. */
  ghost predicate UploadWaits(c: Scene, c': Scene, id: nat, readOnly: bool) {
    && OthersKept(c.queue, c'.queue, id)
    && if readOnly then c'.queue.Keys <= c.queue.Keys else WaitsAlone(c'.queue, id, Queue.Upload, c.next)
  }

  /** The queue after an upload was to be queued, and the next free id. */
  function Uploading(q: Queue.Table, next: nat, id: nat, readOnly: bool): (Queue.Table, nat) {
    if readOnly then (q, next) else (Queue.Enqueue(q, next, id, Queue.Upload, 0), next + 1)
  }

  /** No upload of the file waits or is under way (HasActiveWriteback). */
  ghost predicate NoUpload(q: Queue.Table, id: nat) {
    forall k :: k in q && q[k].inode == id && q[k].action == Queue.Upload ==> q[k].state == Queue.GaveUp
  }

  // ---------------------------------------------------------------- the reconciler

  /** The file is not what was last in step with the server. */
  predicate Edited(h: Digest, r: Row, f: LocalFile) { Baseline(r) != "" && h(f.content) != Baseline(r) }

  /** The remote version is the one the local content belongs to. */
  predicate SameVersion(r: Row) { r.localHash != "" && r.etag != "" && r.localEtag == r.etag }

  /** The row asks for another upload: a failed one that is due, or one edited behind the daemon's back. */
  predicate Drifted(h: Digest, r: Row, f: LocalFile, withheld: bool, downloadFailed: bool) {
    || (r.status == Failed && !withheld && (r.dirty || !downloadFailed))
    || (r.status == Synced && Edited(h, r, f) && SameVersion(r))
  }

  /** An upload is owed to the server: of a new file, a pending one, or one that drifted. */
  ghost predicate Owed(h: Digest, c: Scene, valid: bool, withheld: bool, downloadFailed: bool) {
    && c.disk.Some?
    && (match c.row
        case None => valid
        case Some(r) =>
          && NoUpload(c.queue, r.id)
          && (r.status == Pending || (valid && Drifted(h, r, c.disk.value, withheld, downloadFailed))))
  }

  /** File and version both moved, or nothing says what the file was. */
  predicate Disputed(h: Digest, c: Scene) {
    && c.disk.Some? && c.row.Some? && c.row.value.status == Synced
    && (Baseline(c.row.value) == "" || (Edited(h, c.row.value, c.disk.value) && !SameVersion(c.row.value)))
  }

  /** A file that may not be uploaded: it is new, or drifted. */
  predicate Barred(h: Digest, c: Scene, valid: bool, withheld: bool, downloadFailed: bool) {
    !valid && c.disk.Some? && (c.row.Some? ==> Drifted(h, c.row.value, c.disk.value, withheld, downloadFailed))
  }

  /** The file waits to be uploaded, once; a row that was pending already stays as it is. */
  ghost predicate WillUpload(c: Scene, c': Scene, readOnly: bool) {
    && c'.row.Some? && (c.row.Some? ==> c'.row.value.id == c.row.value.id) && c'.row.value.status == Pending
    && UploadWaits(c, c', c'.row.value.id, readOnly)
    && (if c.row.Some? && c.row.value.status == Pending then c'.row == c.row
        else c'.row.value.dirty && !c'.row.value.cached && Baseline(c'.row.value) == "")
  }

  /** The row is in conflict, with the edit pending and the baseline kept. */
  ghost predicate InDispute(c: Scene, c': Scene) {
    && c'.row.Some? && c.row.Some? && c'.row.value.id == c.row.value.id && c'.row.value.status == Conflict
    && c'.row.value.dirty && !c'.row.value.cached && Baseline(c'.row.value) == Baseline(c.row.value)
    && c'.queue == c.queue
  }

  /** Edit, baseline and queue are as they were. */
  ghost predicate Settled(c: Scene, c': Scene, rejected: bool) {
    && c'.queue == c.queue
    && (c.row.None? && !rejected ==> c'.row.None?)
    && (c.row.None? && rejected ==> c'.row.Some? && c'.row.value.dirty && c'.row.value.status == Rejected)
    && (c.row.Some? ==>
          && c'.row.Some? && c'.row.value.id == c.row.value.id && c'.row.value.dirty == c.row.value.dirty
          && Baseline(c'.row.value) == Baseline(c.row.value) && c'.row.value.cached == c.row.value.cached
          && c'.row.value.status == if rejected then Rejected else c.row.value.status)
  }

  ghost predicate Healed(h: Digest, c: Scene, c': Scene, readOnly: bool, valid: bool, withheld: bool,
                         downloadFailed: bool) {
    && c' == c.(row := c'.row, nextRow := c'.nextRow, queue := c'.queue, next := c'.next)
    && if Owed(h, c, valid, withheld, downloadFailed) then WillUpload(c, c', readOnly)
       else if Disputed(h, c) then InDispute(c, c')
       else Settled(c, c', Barred(h, c, valid, withheld, downloadFailed))
  }

  /** The row of a file that is to be uploaded again. */
  function Requeued(r: Row, size: nat): Row {
    r.(size := size, cached := false, dirty := true, contentHash := "", localHash := "", downloadBaseline := "",
       localEtag := "", status := Pending)
  }

  lemma {:induction false} RequeuePlays(c: Scene, readOnly: bool, r: Row, size: nat)
    requires c.row == Some(r)
    ensures var (queue, next) := Uploading(Queue.DropFailedUploads(c.queue, r.id), c.next, r.id, readOnly);
            Played(c, readOnly, RequeueUpload(r, size, true, false).ops, 0).0
            == c.(row := Some(Requeued(r, size)), next := next, queue := queue)
  {
    var drop, write := DropFailedUploads(Id(r.id)),
                       UpsertRow(Inode(r.path, size, false, true, "", r.localHash, r.etag, Pending));
    var tail := [LocalContent(Returned, ""), Enqueue(Returned, Queue.Upload, 0)];
    assert RequeueUpload(r, size, true, false).ops == [drop] + ([write] + tail);
    PlayCons(c, readOnly, drop, [write] + tail, 0);
    var c1 := c.(queue := Queue.DropFailedUploads(c.queue, r.id));
    assert SceneAfter(c, readOnly, drop, 0) == (c1, 0);
    PlayCons(c1, readOnly, write, tail, 0);
    RequeueTail(c1, readOnly, r, size, write.inode);
  }

  lemma {:induction false} RequeueTail(c: Scene, readOnly: bool, r: Row, size: nat, inode: Inode)
    requires c.row == Some(r) && inode == Inode(r.path, size, false, true, "", r.localHash, r.etag, Pending)
    ensures var (c1, id) := SceneAfter(c, readOnly, UpsertRow(inode), 0);
            var (queue, next) := Uploading(c.queue, c.next, r.id, readOnly);
            Played(c1, readOnly, [LocalContent(Returned, ""), Enqueue(Returned, Queue.Upload, 0)], id).0
            == c.(row := Some(Requeued(r, size)), next := next, queue := queue)
  {
    var c1 := c.(row := Some(Upsert(Some(r), c.nextRow, inode)));
    PlayTwo(c1, readOnly, LocalContent(Returned, ""), Enqueue(Returned, Queue.Upload, 0), r.id);
  }

  lemma {:induction false} NewFilePlays(c: Scene, readOnly: bool, seen: Seen, valid: bool)
    requires c.row == None && seen.disk.Some?
    ensures var c' := Played(c, readOnly, PlanNewFile(seen, valid).ops, 0).0;
            && c'.row.Some? && c'.row.value.id == c.nextRow && c'.row.value.dirty && !c'.row.value.cached
            && c'.row.value.status == (if valid then Pending else Rejected) && Baseline(c'.row.value) == ""
            && c' == c.(row := c'.row, nextRow := c'.nextRow, queue := c'.queue, next := c'.next)
            && c'.queue == if valid then Uploading(c.queue, c.next, c.nextRow, readOnly).0 else c.queue
  {
    var write := UpsertRow(NewInode(THIS_PATH, |seen.disk.value.content|, if valid then Pending else Rejected));
    if valid {
      PlayTwo(c, readOnly, write, Enqueue(Returned, Queue.Upload, 0), 0);
    } else {
      PlayOne(c, readOnly, write, 0);
    }
  }

  lemma {:induction false} Queues(q: Queue.Table, next: nat, id: nat, action: Queue.Action)
    requires action != Queue.Rename && forall k :: k in q ==> k < next
    ensures WaitsAlone(Queue.Enqueue(q, next, id, action, 0), id, action, next)
    ensures OthersKept(q, Queue.Enqueue(q, next, id, action, 0), id)
  {
  }

  lemma {:induction false} UploadQueues(c: Scene, c': Scene, q: Queue.Table, id: nat, readOnly: bool)
    requires OthersKept(c.queue, q, id) && q.Keys <= c.queue.Keys && forall k :: k in c.queue ==> k < c.next
    requires c'.queue == Uploading(q, c.next, id, readOnly).0
    ensures UploadWaits(c, c', id, readOnly)
  {
    Queues(q, c.next, id, Queue.Upload);
  }

  /** What was queued and what was given up is gone, the new upload waits. */
  lemma {:induction false} RequeueHeals(c: Scene, readOnly: bool, r: Row, size: nat)
    requires c.row == Some(r) && r.status != Pending && NoUpload(c.queue, r.id)
    requires forall k :: k in c.queue ==> k < c.next
    ensures var c' := Played(c, readOnly, RequeueUpload(r, size, true, false).ops, 0).0;
            && WillUpload(c, c', readOnly)
            && c' == c.(row := c'.row, nextRow := c'.nextRow, queue := c'.queue, next := c'.next)
  {
    RequeuePlays(c, readOnly, r, size);
    UploadQueues(c, Played(c, readOnly, RequeueUpload(r, size, true, false).ops, 0).0,
                 Queue.DropFailedUploads(c.queue, r.id), r.id, readOnly);
  }

  lemma {:induction false} HealNew(h: Digest, c: Scene, readOnly: bool, seen: Seen, valid: bool, withheld: bool,
                                   downloadFailed: bool)
    requires c.row == None && seen.disk.Some? && seen.disk == c.disk
    requires forall k :: k in c.queue ==> k < c.next
    ensures Healed(h, c, Played(c, readOnly, PlanNewFile(seen, valid).ops, 0).0, readOnly, valid, withheld,
                   downloadFailed)
  {
    NewFilePlays(c, readOnly, seen, valid);
    if valid { UploadQueues(c, Played(c, readOnly, PlanNewFile(seen, valid).ops, 0).0, c.queue, c.nextRow, readOnly); }
  }

  /** The three answers to a row that is not pending. */
  lemma {:induction false} HealAnswers(h: Digest, r: Row, seen: Seen, valid: bool, withheld: bool, downloadFailed: bool,
                                       inFlight: bool)
    requires seen == Seen(Some(r), seen.disk, seen.node) && seen.disk.Some? && r.status != Pending
    ensures var f := seen.disk.value;
            var plan := PlanHeal(h, seen, valid, withheld, downloadFailed, inFlight);
            var keep := [LocalContentFor(Id(r.id), r.localHash, r.localEtag)];
            if Drifted(h, r, f, withheld, downloadFailed) then plan == RequeueUpload(r, |f.content|, valid, inFlight)
            else if r.status == Synced && (Baseline(r) == "" || (Edited(h, r, f) && !SameVersion(r))) then
              plan == Statements([ConflictRow(Id(r.id))])
            else plan == Nothing() || (plan == Statements(keep) && r.localHash != "")
  {
  }

  lemma {:induction false} HealDrifted(h: Digest, c: Scene, readOnly: bool, r: Row, valid: bool, withheld: bool,
                                       downloadFailed: bool, inFlight: bool)
    requires c.row == Some(r) && c.disk.Some? && inFlight == !NoUpload(c.queue, r.id) && r.status != Pending
    requires Drifted(h, r, c.disk.value, withheld, downloadFailed) && forall k :: k in c.queue ==> k < c.next
    ensures var ops := RequeueUpload(r, |c.disk.value.content|, valid, inFlight).ops;
            Healed(h, c, Played(c, readOnly, ops, 0).0, readOnly, valid, withheld, downloadFailed)
  {
    if valid && !inFlight {
      RequeueHeals(c, readOnly, r, |c.disk.value.content|);
    } else if !valid {
      PlayOne(c, readOnly, StatusRow(Id(r.id), Rejected), 0);
    }
  }

  lemma {:induction false} HealRow(h: Digest, c: Scene, readOnly: bool, r: Row, node: Node, valid: bool, withheld: bool,
                                   downloadFailed: bool, inFlight: bool)
    requires c.row == Some(r) && c.disk.Some? && inFlight == !NoUpload(c.queue, r.id)
    requires r.status != Pending && forall k :: k in c.queue ==> k < c.next
    ensures var ops := PlanHeal(h, Seen(c.row, c.disk, node), valid, withheld, downloadFailed, inFlight).ops;
            Healed(h, c, Played(c, readOnly, ops, 0).0, readOnly, valid, withheld, downloadFailed)
  {
    HealAnswers(h, r, Seen(c.row, c.disk, node), valid, withheld, downloadFailed, inFlight);
    if Drifted(h, r, c.disk.value, withheld, downloadFailed) {
      HealDrifted(h, c, readOnly, r, valid, withheld, downloadFailed, inFlight);
    } else {
      PlayOne(c, readOnly, ConflictRow(Id(r.id)), 0);
      PlayOne(c, readOnly, LocalContentFor(Id(r.id), r.localHash, r.localEtag), 0);
    }
  }

  lemma {:induction false} HealPending(h: Digest, c: Scene, readOnly: bool, r: Row, seen: Seen, valid: bool,
                                       withheld: bool, downloadFailed: bool, inFlight: bool)
    requires c.row == Some(r) && seen.row == c.row && seen.disk == c.disk && c.disk.Some?
    requires inFlight == !NoUpload(c.queue, r.id) && r.status == Pending && forall k :: k in c.queue ==> k < c.next
    ensures var ops := PlanHeal(h, seen, valid, withheld, downloadFailed, inFlight).ops;
            Healed(h, c, Played(c, readOnly, ops, 0).0, readOnly, valid, withheld, downloadFailed)
  {
    if !inFlight {
      PlayOne(c, readOnly, Enqueue(Id(r.id), Queue.Upload, 0), 0);
      UploadQueues(c, Played(c, readOnly, [Enqueue(Id(r.id), Queue.Upload, 0)], 0).0, c.queue, r.id, readOnly);
    }
  }

  lemma {:induction false} HealPlays(h: Digest, c: Scene, readOnly: bool, node: Node, valid: bool, withheld: bool,
                                     downloadFailed: bool, inFlight: bool)
    requires forall k :: k in c.queue ==> k < c.next
    requires c.row.Some? ==> inFlight == !NoUpload(c.queue, c.row.value.id)
    ensures var ops := PlanHeal(h, Seen(c.row, c.disk, node), valid, withheld, downloadFailed, inFlight).ops;
            Healed(h, c, Played(c, readOnly, ops, 0).0, readOnly, valid, withheld, downloadFailed)
  {
    if c.disk.Some? {
      var seen := Seen(c.row, c.disk, node);
      match c.row
      case None => HealNew(h, c, readOnly, seen, valid, withheld, downloadFailed);
      case Some(r) =>
        if r.status == Pending {
          HealPending(h, c, readOnly, r, seen, valid, withheld, downloadFailed, inFlight);
        } else {
          HealRow(h, c, readOnly, r, node, valid, withheld, downloadFailed, inFlight);
        }
    }
  }

  /**
   The reconciler, undisturbed, on any state: what is owed waits to be uploaded, exactly once, with the row dirty and
   pending; what is disputed ends in conflict; anything else keeps its edit, its baseline and its queue.  The file is
   not touched.
   */
  lemma {:induction false} HealExactly(h: Digest, s: Sys, t: nat, node: Node, valid: bool, withheld: bool,
                                       downloadFailed: bool, inFlight: bool)
    requires CanStart(s, t) && forall k :: k in s.queue ==> k < s.nextEntry
    requires s.row.Some? ==> inFlight == !NoUpload(s.queue, s.row.value.id)
    ensures var s' := Effect(h, s, t, node, Heal(valid, withheld, downloadFailed, inFlight));
            && Reaches(h, s, s') && s'.held == s.held
            && Healed(h, SceneOf(s), SceneOf(s'), s.readOnly, valid, withheld, downloadFailed)
  {
    var c, seen := SceneOf(s), Seen(s.row, s.disk, node);
    HealIsScript(h, seen, valid, withheld, downloadFailed, inFlight);
    TaskPlays(h, s, t, node, Heal(valid, withheld, downloadFailed, inFlight));
    HealPlays(h, c, s.readOnly, node, valid, withheld, downloadFailed, inFlight);
  }

  lemma {:induction false} HealIsScript(h: Digest, seen: Seen, valid: bool, withheld: bool, downloadFailed: bool,
                                        inFlight: bool)
    ensures var p := PlanHeal(h, seen, valid, withheld, downloadFailed, inFlight);
            p.Statements? && KeepCopy !in p.ops
  {
  }

  /** A file edited while nobody watched: synced and clean before, it ends dirty and pending with one upload waiting. */
  lemma {:induction false} OfflineEditIsQueued(h: Digest, s: Sys, t: nat, node: Node)
    requires CanStart(s, t) && !s.readOnly && forall k :: k in s.queue ==> k < s.nextEntry
    requires s.disk.Some? && s.row.Some? && s.row.value.status == Synced && NoUpload(s.queue, s.row.value.id)
    requires SameVersion(s.row.value) && h(s.disk.value.content) != s.row.value.localHash
    ensures var s' := Effect(h, s, t, node, Heal(true, false, false, false));
            && Reaches(h, s, s') && s'.disk == s.disk && s'.row.Some? && s'.row.value.id == s.row.value.id
            && s'.row.value.dirty && s'.row.value.status == Pending
            && WaitsAlone(s'.queue, s.row.value.id, Queue.Upload, s.nextEntry)
  {
    HealExactly(h, s, t, node, true, false, false, false);
  }
}
