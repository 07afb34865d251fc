/** What the commands of the daemon, the watcher's removals and the listings leave, run to their ends. */
module SyncCommands {
  import opened Options
  import opened CacheRow
  import opened SyncState
  import opened SyncActors
  import opened SyncSafety
  import opened SyncProgress
  import opened SyncEffects
  import Queue

  // ---------------------------------------------------------------- the daemon's commands

  /** The node of the file, if there is one, gets that status; a clean one is to be fetched again. */
  function NodeSet(nodes: map<nat, Node>, owner: Option<nat>, status: Status, dirty: bool): map<nat, Node> {
    if owner.None? || owner.value !in nodes then nodes
    else
      var n := nodes[owner.value];
      nodes[owner.value := n.(status := status, dirty := dirty, cached := dirty && n.cached)]
  }

  lemma {:induction false} SetNodePlays(c: Scene, readOnly: bool, owner: Option<nat>, status: Status, dirty: bool,
                                        returned: nat)
    ensures Played(c, readOnly, SetNode(owner, status, dirty), returned)
         == (c.(nodes := NodeSet(c.nodes, owner, status, dirty)), returned)
  {
    if owner.Some? { PlayOne(c, readOnly, SetNode(owner, status, dirty)[0], returned); }
  }

  /** The remote version was accepted: nothing is queued for the file; its row is clean, synced and to be fetched. */
  ghost predicate AcceptsRemote(c: Scene, c': Scene, r: Row) {
    && c'.row.Some? && c'.row.value.id == r.id && !c'.row.value.dirty && !c'.row.value.cached
    && c'.row.value.status == Synced && Baseline(c'.row.value) == Baseline(r) && c'.row.value.localHash == ""
    && (forall k :: k in c'.queue ==> c'.queue[k].inode != r.id) && OthersKept(c.queue, c'.queue, r.id)
  }

  lemma {:induction false} AcceptPlays(c: Scene, readOnly: bool, r: Row, owner: Option<nat>)
    requires c.row == Some(r)
    ensures var id := Id(r.id);
            var ops := [DropQueued(id), SyncedRow(id, ""), InvalidateRow(id)] + SetNode(owner, Synced, false);
            var c' := Played(c, readOnly, ops, 0).0;
            && AcceptsRemote(c, c', r)
            && c' == c.(row := c'.row, queue := c'.queue, nodes := NodeSet(c.nodes, owner, Synced, false))
  {
    var id := Id(r.id);
    PlayConcat(c, readOnly, [DropQueued(id), SyncedRow(id, ""), InvalidateRow(id)], SetNode(owner, Synced, false), 0);
    PlayThree(c, readOnly, DropQueued(id), SyncedRow(id, ""), InvalidateRow(id), 0);
    SetNodePlays(Played(c, readOnly, [DropQueued(id), SyncedRow(id, ""), InvalidateRow(id)], 0).0, readOnly, owner,
                 Synced, false, 0);
  }

  /** The local version was chosen: the edit is pending and its upload is all that is queued for the file. */
  ghost predicate SendsLocal(c: Scene, c': Scene, r: Row) {
    && c'.row.Some? && c'.row.value.id == r.id && c'.row.value.dirty && c'.row.value.status == Pending
    && Baseline(c'.row.value) == Baseline(r) && WaitsAlone(c'.queue, r.id, Queue.Upload, c.next)
    && (forall k :: k in c'.queue && c'.queue[k].inode == r.id ==> k == c.next) && OthersKept(c.queue, c'.queue, r.id)
  }

  /** The row and the queue of a file whose local version was chosen. */
  function Sent(c: Scene, r: Row): Scene {
    c.(row := Some(MarkDirty(r)), next := c.next + 1,
       queue := Queue.Enqueue(Queue.DropInode(c.queue, r.id), c.next, r.id, Queue.Upload, 0))
  }

  lemma {:induction false} SentPlays(c: Scene, r: Row)
    requires c.row == Some(r)
    ensures Played(c, false, [DropQueued(Id(r.id)), DirtyRow(Id(r.id)), Enqueue(Id(r.id), Queue.Upload, 0)], 0)
         == (Sent(c, r), 0)
  {
    PlayThree(c, false, DropQueued(Id(r.id)), DirtyRow(Id(r.id)), Enqueue(Id(r.id), Queue.Upload, 0), 0);
  }

  lemma {:induction false} SentSends(c: Scene, r: Row, nodes: map<nat, Node>)
    requires c.row == Some(r) && forall k :: k in c.queue ==> k < c.next
    ensures SendsLocal(c, Sent(c, r).(nodes := nodes), r)
  {
    Queues(Queue.DropInode(c.queue, r.id), c.next, r.id, Queue.Upload);
  }

  lemma {:induction false} SendPlays(c: Scene, r: Row, owner: Option<nat>)
    requires c.row == Some(r)
    ensures var id := Id(r.id);
            var ops := [DropQueued(id), DirtyRow(id), Enqueue(id, Queue.Upload, 0)] + SetNode(owner, Pending, true);
            Played(c, false, ops, 0).0 == Sent(c, r).(nodes := NodeSet(c.nodes, owner, Pending, true))
  {
    var ops := [DropQueued(Id(r.id)), DirtyRow(Id(r.id)), Enqueue(Id(r.id), Queue.Upload, 0)];
    PlayConcat(c, false, ops, SetNode(owner, Pending, true), 0);
    SentPlays(c, r);
    SetNodePlays(Sent(c, r), false, owner, Pending, true, 0);
  }

  // ---------------------------------------------------------------- resolving a conflict

  predicate InConflict(c: Scene) { c.row.Some? && c.row.value.status == Conflict }

  /** The file went where the choice sends it. */
  predicate LocalGone(c: Scene, c': Scene, choice: Choice) {
    && c'.disk == None && c'.trash == c.trash
    && c'.copies == c.copies + (if choice == KeepBoth && c.disk.Some? then {c.disk.value.content} else {})
    && c'.discarded == c.discarded + (if choice == KeepRemote && c.disk.Some? then {c.disk.value.content} else {})
  }

  ghost predicate Resolved(c: Scene, c': Scene, choice: Choice, owner: Option<nat>, readOnly: bool) {
    if !InConflict(c) || (choice == KeepLocal && readOnly) || (choice == KeepBoth && c.disk.None?) then c' == c
    else if choice == KeepLocal then
      SendsLocal(c, c', c.row.value) && c'.disk == c.disk && c'.nodes == NodeSet(c.nodes, owner, Pending, true)
    else
      && AcceptsRemote(c, c', c.row.value) && LocalGone(c, c', choice)
      && c'.nodes == NodeSet(c.nodes, owner, Synced, false)
  }

  /** The two choices that give up the local file. */
  lemma {:induction false} GiveUpPlays(c: Scene, seen: Seen, choice: Choice, owner: Option<nat>, readOnly: bool)
    requires InConflict(c) && seen.row == c.row && choice != KeepLocal && (choice == KeepBoth ==> c.disk.Some?)
    ensures var ops := PlanResolve(seen, choice, owner, readOnly).ops;
            Resolved(c, Played(c, readOnly, ops, 0).0, choice, owner, readOnly)
  {
    var id := Id(c.row.value.id);
    var take := if choice == KeepRemote then DiscardLocal else KeepCopy;
    var accept := [DropQueued(id), SyncedRow(id, ""), InvalidateRow(id)] + SetNode(owner, Synced, false);
    assert PlanResolve(seen, choice, owner, readOnly).ops == [take] + accept;
    PlayCons(c, readOnly, take, accept, 0);
    assert SceneAfter(c, readOnly, take, 0) == (FileAfter(c, take), 0);
    AcceptPlays(FileAfter(c, take), readOnly, c.row.value, owner);
  }

  lemma {:induction false} ResolvePlays(c: Scene, seen: Seen, choice: Choice, owner: Option<nat>, readOnly: bool)
    requires seen.row == c.row && (choice == KeepBoth && InConflict(c) ==> c.disk.Some?)
    requires forall k :: k in c.queue ==> k < c.next
    ensures var ops := PlanResolve(seen, choice, owner, readOnly).ops;
            Resolved(c, Played(c, readOnly, ops, 0).0, choice, owner, readOnly)
  {
    if InConflict(c) && choice != KeepLocal {
      GiveUpPlays(c, seen, choice, owner, readOnly);
    } else if InConflict(c) && !readOnly {
      SendPlays(c, c.row.value, owner);
      SentSends(c, c.row.value, NodeSet(c.nodes, owner, Pending, true));
    }
  }

  lemma {:induction false} ResolveUnaborted(c: Scene, seen: Seen, choice: Choice, owner: Option<nat>, readOnly: bool)
    requires choice == KeepBoth && seen.row.Some? && seen.row.value.status == Conflict ==> c.disk.Some?
    ensures var p := PlanResolve(seen, choice, owner, readOnly); p.Statements? && Unaborted(c, p.ops)
  {
  }

  lemma {:induction false} NothingRuns(s: Sys, t: nat, n: nat)
    requires t in s.threads && s.threads[t].Script? && s.threads[t].ops == []
    ensures ExecMany(s, t, n) == s
    decreases n
  {
    if n > 0 { NothingRuns(s, t, n - 1); }
  }

  /** A copy that finds no file ends the command with nothing done. */
  lemma {:induction false} NoFileNoCopy(h: Digest, s: Sys, t: nat, node: Node, owner: Option<nat>)
    requires CanStart(s, t) && s.row.Some? && s.row.value.status == Conflict && s.disk.None?
    ensures var s' := Effect(h, s, t, node, ResolveConflict(KeepBoth, owner));
            SceneOf(s') == SceneOf(s) && s'.held == s.held && Reaches(h, s, s')
  {
    var seen := Seen(s.row, s.disk, node);
    var started := StartThread(h, s, t, seen, ResolveConflict(KeepBoth, owner));
    var ops := PlanResolve(seen, KeepBoth, owner, s.readOnly).ops;
    assert started == SetThread(s, t, Script(ops, 0, Finish));
    CopyAborts(s, t, started, ops);
    TwoEvents(h, s, Start(t, seen, ResolveConflict(KeepBoth, owner)), Exec(t));
  }

  lemma {:induction false} TwoEvents(h: Digest, s: Sys, a: Event, b: Event)
    ensures Reaches(h, s, Perform(h, Perform(h, s, a), b))
  {
    ReachesItself(h, s);
    OneMore(h, s, s, a);
    OneMore(h, s, Perform(h, s, a), b);
  }

  lemma {:induction false} CopyAborts(s: Sys, t: nat, started: Sys, ops: seq<Op>)
    requires ops != [] && ops[0] == KeepCopy && s.disk.None? && started == SetThread(s, t, Script(ops, 0, Finish))
    ensures ExecMany(started, t, |ops|) == ExecThread(started, t) == SetThread(s, t, Script([], 0, Finish))
  {
    var aborted := SetThread(s, t, Script([], 0, Finish));
    assert started.threads[t := Script([], 0, Finish)] == aborted.threads;
    assert ExecThread(started, t) == aborted;
    NothingRuns(aborted, t, |ops| - 1);
  }

  /**
   Resolving, undisturbed.  "local" leaves the edit pending and its upload as all that is queued for the file; "remote"
   and "both" leave the file gone, discarded or as a copy, nothing queued for it, and a clean row that will be fetched.
   Nothing happens without a conflict, for "local" on a read-only mount, and for "both" without a file.
   */
  lemma {:induction false} ResolveExactly(h: Digest, s: Sys, t: nat, node: Node, choice: Choice, owner: Option<nat>)
    requires CanStart(s, t) && forall k :: k in s.queue ==> k < s.nextEntry
    ensures var s' := Effect(h, s, t, node, ResolveConflict(choice, owner));
            && Reaches(h, s, s') && s'.held == s.held
            && Resolved(SceneOf(s), SceneOf(s'), choice, owner, s.readOnly)
  {
    var c, seen := SceneOf(s), Seen(s.row, s.disk, node);
    if choice == KeepBoth && InConflict(c) && s.disk.None? {
      NoFileNoCopy(h, s, t, node, owner);
    } else {
      ResolveUnaborted(c, seen, choice, owner, s.readOnly);
      TaskPlays(h, s, t, node, ResolveConflict(choice, owner));
      ResolvePlays(c, seen, choice, owner, s.readOnly);
    }
  }

  // ---------------------------------------------------------------- retrying

  predicate Retried(c: Scene) { c.row.Some? && c.row.value.status != Conflict && c.row.value.status != Rejected }

  /** The node of a retried file: an edit is pending again, or the file is to be fetched again. */
  function RetryNodes(nodes: map<nat, Node>, owner: Option<nat>, dirty: bool): map<nat, Node> {
    if owner.None? || owner.value !in nodes then nodes
    else
      var n := nodes[owner.value];
      nodes[owner.value := if dirty then n.(dirty := true, status := Pending)
                           else n.(cached := false, status := Synced)]
  }

  /** No upload that was given up is left of the file, and a pending edit waits to be sent, once. */
  ghost predicate RetryQueues(c: Scene, c': Scene, r: Row, readOnly: bool)
  {
    && OthersKept(c.queue, c'.queue, r.id)
    && (forall k :: k in c'.queue && c'.queue[k].inode == r.id && c'.queue[k].action == Queue.Upload ==>
          c'.queue[k].state != Queue.GaveUp)
    && (r.dirty && !readOnly ==> WaitsAlone(c'.queue, r.id, Queue.Upload, c.next))
  }

  ghost predicate RetryOutcome(c: Scene, c': Scene, owner: Option<nat>, readOnly: bool) {
    if !Retried(c) then c' == c
    else
      var r := c.row.value;
      && c'.row == Some(r.(status := if r.dirty then Pending else Synced))
      && c' == c.(row := c'.row, queue := c'.queue, next := c'.next, nodes := RetryNodes(c.nodes, owner, r.dirty))
      && RetryQueues(c, c', r, readOnly)
  }

  lemma {:induction false} RetryNodePlays(c: Scene, readOnly: bool, owner: Option<nat>, dirty: bool, patch: Patch)
    requires patch == if dirty then Patch(None, None, None, Some(true), Some(Pending))
                      else Patch(None, None, Some(false), None, Some(Synced))
    ensures Played(c, readOnly, if owner.None? then [] else [UpdateNode(owner.value, patch)], 0).0
         == c.(nodes := RetryNodes(c.nodes, owner, dirty))
  {
    if owner.Some? { PlayOne(c, readOnly, UpdateNode(owner.value, patch), 0); }
  }

  /** Row and queue of a file whose edit is retried. */
  function Resent(c: Scene, r: Row, readOnly: bool): Scene {
    var dropped := Queue.DropFailedUploads(c.queue, r.id);
    c.(row := Some(r.(status := Pending)), next := if readOnly then c.next else c.next + 1,
       queue := if readOnly then dropped else Queue.Enqueue(dropped, c.next, r.id, Queue.Upload, 0))
  }

  lemma {:induction false} ResentPlays(c: Scene, r: Row, readOnly: bool)
    requires c.row == Some(r)
    ensures var ops := [DropFailedUploads(Id(r.id)), StatusRow(Id(r.id), Pending), Enqueue(Id(r.id), Queue.Upload, 0)];
            Played(c, readOnly, ops, 0) == (Resent(c, r, readOnly), 0)
  {
    PlayThree(c, readOnly, DropFailedUploads(Id(r.id)), StatusRow(Id(r.id), Pending),
              Enqueue(Id(r.id), Queue.Upload, 0), 0);
  }

  lemma {:induction false} ResentQueues(c: Scene, r: Row, nodes: map<nat, Node>, readOnly: bool)
    requires c.row == Some(r) && forall k :: k in c.queue ==> k < c.next
    ensures RetryQueues(c, Resent(c, r, readOnly).(nodes := nodes), r, readOnly)
  {
    Queues(Queue.DropFailedUploads(c.queue, r.id), c.next, r.id, Queue.Upload);
  }

  lemma {:induction false} RetryDirty(c: Scene, seen: Seen, owner: Option<nat>, readOnly: bool)
    requires seen.row == c.row && Retried(c) && c.row.value.dirty && forall k :: k in c.queue ==> k < c.next
    ensures RetryOutcome(c, Played(c, readOnly, PlanRetry(seen, owner).ops, 0).0, owner, readOnly)
  {
    var r, patch := c.row.value, Patch(None, None, None, Some(true), Some(Pending));
    var ops := [DropFailedUploads(Id(r.id)), StatusRow(Id(r.id), Pending), Enqueue(Id(r.id), Queue.Upload, 0)];
    PlayConcat(c, readOnly, ops, if owner.None? then [] else [UpdateNode(owner.value, patch)], 0);
    ResentPlays(c, r, readOnly);
    RetryNodePlays(Resent(c, r, readOnly), readOnly, owner, true, patch);
    ResentQueues(c, r, RetryNodes(c.nodes, owner, true), readOnly);
  }

  lemma {:induction false} RetryClean(c: Scene, seen: Seen, owner: Option<nat>, readOnly: bool)
    requires seen.row == c.row && Retried(c) && !c.row.value.dirty
    ensures RetryOutcome(c, Played(c, readOnly, PlanRetry(seen, owner).ops, 0).0, owner, readOnly)
  {
    var r, patch := c.row.value, Patch(None, None, Some(false), None, Some(Synced));
    var ops := [DropFailedUploads(Id(r.id)), StatusRow(Id(r.id), Synced)];
    var c1 := c.(row := Some(r.(status := Synced)), queue := Queue.DropFailedUploads(c.queue, r.id));
    PlayConcat(c, readOnly, ops, if owner.None? then [] else [UpdateNode(owner.value, patch)], 0);
    PlayTwo(c, readOnly, ops[0], ops[1], 0);
    assert Played(c, readOnly, ops, 0) == (c1, 0);
    RetryNodePlays(c1, readOnly, owner, false, patch);
  }

  /** Retrying, undisturbed: a pending edit waits again, a failed download will be fetched again. */
  lemma {:induction false} RetryExactly(h: Digest, s: Sys, t: nat, node: Node, owner: Option<nat>)
    requires CanStart(s, t) && forall k :: k in s.queue ==> k < s.nextEntry
    ensures var s' := Effect(h, s, t, node, RetryFailed(owner));
            && Reaches(h, s, s') && s'.held == s.held && RetryOutcome(SceneOf(s), SceneOf(s'), owner, s.readOnly)
  {
    TaskPlays(h, s, t, node, RetryFailed(owner));
    if Retried(SceneOf(s)) {
      if s.row.value.dirty { RetryDirty(SceneOf(s), Seen(s.row, s.disk, node), owner, s.readOnly); }
      else { RetryClean(SceneOf(s), Seen(s.row, s.disk, node), owner, s.readOnly); }
    }
  }
}
