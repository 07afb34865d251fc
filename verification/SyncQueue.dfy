/**
 The write-back queue under interleaving: whatever watcher, poller, reconciler, daemon and any number of processors do
 to it, live rows have retries left, a claimed row has exactly one owner, and only killing its owner orphans it.
 */
module SyncQueue {
  import opened Options
  import opened CacheRow
  import opened SyncState
  import opened SyncActors
  import opened SyncSafety
  import opened SyncProgress
  import Queue

  /** A statement by which a claimed row is finished or handed back. */
  predicate Closes(op: Op) { op.RemoveEntry? || op.UpdateEntry? }

  /** A script closes each row once, claims none, gives none a fourth attempt, and closes none if it may be aborted. */
  ghost predicate SoundScript(ops: seq<Op>) {
    && (forall i, j :: 0 <= i < j < |ops| && Closes(ops[i]) && Closes(ops[j]) ==> ops[i].entry != ops[j].entry)
    && (forall i :: 0 <= i < |ops| && ops[i].UpdateEntry? ==>
          ops[i].state != Queue.InProgress && (ops[i].state == Queue.GaveUp || ops[i].attempts < 3))
    && (forall i, j :: 0 <= i < |ops| && 0 <= j < |ops| && ops[i].KeepCopy? ==> !Closes(ops[j]))
  }

  ghost predicate SoundThread(thread: Thread) {
    && (thread.Script? ==> SoundScript(thread.ops))
    && (thread.Sending? ==> thread.attempts < 3)
  }

  ghost predicate SoundTickets(tickets: seq<Ticket>) {
    && (forall i :: 0 <= i < |tickets| ==> tickets[i].entry.attempts < 3)
    && (forall i, j :: 0 <= i < j < |tickets| ==> tickets[i].key != tickets[j].key)
  }

  /** Who has claimed rows: a processor, for those it has not handed out, or a thread. */
  datatype Owner = ThreadOf(id: nat) | BatchOf(id: nat)

  ghost predicate Owns(s: Sys, o: Owner, k: nat) {
    match o
    case ThreadOf(t) => t in s.threads && k in Unfinished(s.threads[t])
    case BatchOf(b) => b in s.batches && k in Held(s.batches[b])
  }

  ghost predicate Claimed(q: Queue.Table, next: nat, k: nat) { k < next && (k in q ==> q[k].state == Queue.InProgress) }

  ghost predicate SoundQueue(q: Queue.Table, next: nat) {
    forall k :: k in q ==> k < next && (q[k].state != Queue.GaveUp ==> q[k].attempts < 3)
  }

  ghost predicate Structure(s: Sys) {
    && SoundQueue(s.queue, s.nextEntry)
    && (forall t :: t in s.threads ==> SoundThread(s.threads[t]))
    && (forall b :: b in s.batches ==> SoundTickets(s.batches[b].todo + s.batches[b].held))
  }

  /** Owned rows are claimed or gone, no row has two owners, and a claimed row has one unless its owner was killed. */
  ghost predicate Ownership(s: Sys) {
    && (forall o, k: nat :: Owns(s, o, k) ==> Claimed(s.queue, s.nextEntry, k))
    && (forall o, p, k: nat :: Owns(s, o, k) && Owns(s, p, k) ==> o == p)
    && (forall k :: k in s.queue && s.queue[k].state == Queue.InProgress ==> k in s.lost || exists o :: Owns(s, o, k))
  }

  ghost predicate QueueInv(s: Sys) { Structure(s) && Ownership(s) }

  // ---------------------------------------------------------------- steps that move no row

  /** The queue is as it was and every row has the owner it had. */
  lemma {:induction false} SameOwners(s: Sys, s': Sys)
    requires QueueInv(s) && Structure(s') && s'.queue == s.queue && s'.nextEntry == s.nextEntry && s.lost <= s'.lost
    requires forall o, k: nat :: Owns(s', o, k) <==> Owns(s, o, k)
    ensures QueueInv(s')
  {
    forall k | k in s'.queue && s'.queue[k].state == Queue.InProgress && k !in s'.lost
      ensures exists o :: Owns(s', o, k)
    {
      var o :| Owns(s, o, k);
      assert Owns(s', o, k);
    }
  }

  /** One thread is set to another that has the same rows to finish. */
  lemma {:induction false} SetKeeps(s: Sys, s': Sys, t: nat)
    requires QueueInv(s) && s'.queue == s.queue && s'.nextEntry == s.nextEntry
    requires s'.batches == s.batches && s'.lost == s.lost
    requires t in s'.threads && s'.threads == s.threads[t := s'.threads[t]] && SoundThread(s'.threads[t])
    requires Unfinished(s'.threads[t]) == if t in s.threads then Unfinished(s.threads[t]) else {}
    ensures QueueInv(s')
  {
    SameOwners(s, s');
  }

  lemma {:induction false} OpenScript(ops: seq<Op>, returned: nat, after: After)
    requires forall op :: op in ops ==> !Closes(op)
    ensures SoundScript(ops) && Unfinished(Script(ops, returned, after)) == {}
  {
    assert forall i :: 0 <= i < |ops| ==> !Closes(ops[i]);
  }

  /** A thread without claimed rows is set to a script that closes none, or to the next stage of a download. */
  lemma {:induction false} IdleKeeps(s: Sys, s': Sys, t: nat)
    requires QueueInv(s) && s'.queue == s.queue && s'.nextEntry == s.nextEntry
    requires s'.batches == s.batches && s'.lost == s.lost
    requires t in s'.threads && s'.threads == s.threads[t := s'.threads[t]] && !s'.threads[t].Sending?
    requires t in s.threads ==> Unfinished(s.threads[t]) == {}
    requires s'.threads[t].Script? ==> forall op :: op in s'.threads[t].ops ==> !Closes(op)
    ensures QueueInv(s')
  {
    var thread := s'.threads[t];
    if thread.Script? { OpenScript(thread.ops, thread.returned, thread.after); }
    SetKeeps(s, s', t);
  }

  lemma {:induction false} StartKeepsQueue(h: Digest, s: Sys, t: nat, seen: Seen, task: Task)
    requires QueueInv(s)
    ensures QueueInv(StartThread(h, s, t, seen, task))
  {
    DrasticPlanned(h, seen, task, s.readOnly);
    if StartThread(h, s, t, seen, task) != s { IdleKeeps(s, StartThread(h, s, t, seen, task), t); }
  }

  lemma {:induction false} FetchKeepsQueue(s: Sys, t: nat, body: Content, permanent: bool)
    requires QueueInv(s)
    ensures QueueInv(FetchThread(s, t, body)) && QueueInv(FetchFailed(s, t, permanent))
  {
    if t in s.threads && s.threads[t].Fetching? {
      if body in s.held { IdleKeeps(s, FetchThread(s, t, body), t); }
      IdleKeeps(s, FetchFailed(s, t, permanent), t);
    }
  }

  lemma {:induction false} CommitKeepsQueue(h: Digest, s: Sys, t: nat)
    requires QueueInv(s) && t in s.threads && s.threads[t].Published?
    ensures QueueInv(CommitThread(h, s, t))
  {
    IdleKeeps(s, CommitThread(h, s, t), t);
  }

  lemma {:induction false} PublishKeepsQueue(h: Digest, s: Sys, t: nat, pathSafe: bool, file: LocalFile)
    requires QueueInv(s) && t in s.threads && s.threads[t].Fetched?
    ensures QueueInv(PublishThread(h, s, t, pathSafe, file))
  {
    IdleKeeps(s, PublishThread(h, s, t, pathSafe, file), t);
  }

  lemma {:induction false} SettleKeepsQueue(h: Digest, s: Sys, t: nat, seenDisk: Option<LocalFile>, moved: bool)
    requires QueueInv(s)
    ensures QueueInv(SettleThread(h, s, t, seenDisk, moved))
  {
    if SettleThread(h, s, t, seenDisk, moved) != s {
      OpenScript([], s.threads[t].returned, s.threads[t].after);
      IdleKeeps(s, SettleThread(h, s, t, seenDisk, moved), t);
    }
  }

  // ---------------------------------------------------------------- the end of an attempt

  lemma {:induction false} FailScript(entry: nat, inode: nat, owner: Option<nat>, attempts: nat, permanent: bool)
    ensures var ops := FailOps(entry, inode, owner, attempts, permanent);
            SoundScript(ops) && Unfinished(Script(ops, 0, Finish)) == {entry}
  {
    var ops := FailOps(entry, inode, owner, attempts, permanent);
    if attempts + 1 >= 3 || permanent { assert Closes(ops[0]) && ops[0].entry == entry; }
    else { assert Closes(ops[1]) && ops[1].entry == entry; }
  }

  lemma {:induction false} RecordScript(entry: nat, inode: nat, digest: string, etag: string, after: After)
    ensures var ops := RecordUploadOps(entry, inode, digest, etag);
            SoundScript(ops) && Unfinished(Script(ops, 0, after)) == {entry}
  {
    assert Closes(RecordUploadOps(entry, inode, digest, etag)[0]);
  }

  lemma {:induction false} DoneScript(entry: nat, inode: nat)
    ensures var ops := [RemoveEntry(entry), SyncedRow(Id(inode), "")];
            SoundScript(ops) && Unfinished(Script(ops, 0, Finish)) == {entry}
  {
    assert Closes([RemoveEntry(entry), SyncedRow(Id(inode), "")][0]);
  }

  lemma {:induction false} ReplyKeepsQueue(h: Digest, s: Sys, t: nat, etag: Option<string>, permanent: bool)
    requires QueueInv(s) && t in s.threads && s.threads[t].Sending?
    ensures QueueInv(ReplyThread(h, s, t, etag, permanent))
  {
    var u := s.threads[t];
    if etag.None? {
      FailScript(u.entry, u.inode, OwnerOf(s, u.inode), u.attempts, permanent);
      SetKeeps(s, ReplyThread(h, s, t, etag, permanent), t);
    } else if u.body in s.held {
      var after := SettleUpload(u.entry, u.inode, u.owner, h(u.body), etag.value);
      RecordScript(u.entry, u.inode, h(u.body), etag.value, after);
      SetKeeps(s, ReplyThread(h, s, t, etag, permanent), t);
    }
  }

  // ---------------------------------------------------------------- processors

  function KeysOf(tickets: seq<Ticket>): set<nat> { set i | 0 <= i < |tickets| :: tickets[i].key }

  lemma {:induction false} TicketsAre(q: Queue.Table, keys: seq<nat>)
    requires forall k :: k in keys ==> k in q
    ensures |Tickets(q, keys)| == |keys|
    ensures forall i :: 0 <= i < |keys| ==> Tickets(q, keys)[i] == Ticket(keys[i], q[keys[i]])
  {
    if keys != [] { TicketsAre(q, keys[1..]); }
  }

  /** A claim: waiting rows, which nobody owned, become the processor's. */
  lemma {:induction false} ClaimKeepsQueue(s: Sys, b: nat, keys: seq<nat>)
    requires QueueInv(s)
    ensures QueueInv(Claim(s, b, keys))
  {
    if b !in s.batches && Claimable(s, keys) {
      ClaimStructure(s, b, keys);
      ClaimOwners(s, Claim(s, b, keys), b, keys);
    }
  }

  lemma {:induction false} TicketKeys(q: Queue.Table, keys: seq<nat>)
    requires forall k :: k in keys ==> k in q
    ensures forall k :: k in KeysOf(Tickets(q, keys)) <==> k in keys
  {
    TicketsAre(q, keys);
    forall k | k in keys ensures k in KeysOf(Tickets(q, keys)) {
      var i :| 0 <= i < |keys| && keys[i] == k;
      assert Tickets(q, keys)[i].key == k;
    }
  }

  lemma {:induction false} ClaimStructure(s: Sys, b: nat, keys: seq<nat>)
    requires Structure(s) && Claimable(s, keys) && b !in s.batches
    ensures var s' := Claim(s, b, keys);
            Structure(s') && b in s'.batches && forall k :: k in Held(s'.batches[b]) <==> k in keys
  {
    var s' := Claim(s, b, keys);
    ClaimTickets(s, keys);
    TicketKeys(s.queue, keys);
    assert s'.batches[b].todo + s'.batches[b].held == Tickets(s.queue, keys);
    BatchJoins(s, s', b);
  }

  lemma {:induction false} BatchJoins(s: Sys, s': Sys, b: nat)
    requires Structure(s) && SoundQueue(s'.queue, s'.nextEntry) && s'.threads == s.threads
    requires b in s'.batches && s'.batches == s.batches[b := s'.batches[b]]
    requires SoundTickets(s'.batches[b].todo + s'.batches[b].held)
    ensures Structure(s')
  {
  }

  lemma {:induction false} ClaimTickets(s: Sys, keys: seq<nat>)
    requires Structure(s) && Claimable(s, keys)
    ensures SoundQueue(MarkClaimed(s.queue, keys), s.nextEntry) && SoundTickets(Tickets(s.queue, keys))
  {
    TicketsAre(s.queue, keys);
  }

  lemma {:induction false} ClaimOwners(s: Sys, s': Sys, b: nat, keys: seq<nat>)
    requires QueueInv(s) && b !in s.batches && Claimable(s, keys) && Structure(s')
    requires s'.threads == s.threads && b in s'.batches && s'.batches == s.batches[b := s'.batches[b]]
    requires s'.queue == MarkClaimed(s.queue, keys) && s'.nextEntry == s.nextEntry && s'.lost == s.lost
    requires forall k :: k in Held(s'.batches[b]) <==> k in keys
    ensures QueueInv(s')
  {
    forall o, k: nat ensures Owns(s', o, k) <==> Owns(s, o, k) || (o == BatchOf(b) && k in keys) {}
    forall o, k: nat | Owns(s, o, k) ensures k !in keys && Claimed(s'.queue, s'.nextEntry, k) {
      assert Claimed(s.queue, s.nextEntry, k);
    }
    forall k | k in s'.queue && s'.queue[k].state == Queue.InProgress && k !in s'.lost
      ensures exists o :: Owns(s', o, k)
    {
      if k in keys {
        assert Owns(s', BatchOf(b), k);
      } else {
        var o :| Owns(s, o, k);
        assert Owns(s', o, k);
      }
    }
  }

  /** Holding a row back only moves it within the batch. */
  lemma {:induction false} HoldKeepsQueue(s: Sys, b: nat, seenRow: Option<Row>)
    requires QueueInv(s)
    ensures QueueInv(Hold(s, b, seenRow))
  {
    var s' := Hold(s, b, seenRow);
    if s' != s {
      HoldSame(s.batches[b].todo, s.batches[b].held);
      SameOwners(s, s');
    }
  }

  lemma {:induction false} HoldSame(todo: seq<Ticket>, held: seq<Ticket>)
    requires todo != [] && SoundTickets(todo + held)
    ensures SoundTickets(todo[1..] + (held + [todo[0]]))
    ensures KeysOf(todo[1..] + (held + [todo[0]])) == KeysOf(todo + held)
  {
    var a, b := todo + held, todo[1..] + (held + [todo[0]]);
    var n := |a| - 1;
    assert |b| == |a| && b[n] == a[0];
    assert forall i :: 0 <= i < n ==> b[i] == a[i + 1];
    forall k ensures k in KeysOf(b) <==> k in KeysOf(a) {
      if i :| 0 <= i < |a| && a[i].key == k { assert b[if i == 0 then n else i - 1].key == k; }
    }
  }

  /** Rows pass from a processor to a new thread. */
  lemma {:induction false} TransferKeeps(s: Sys, s': Sys, b: nat, t: nat, moved: set<nat>)
    requires QueueInv(s) && Structure(s') && b in s.batches && t !in s.threads
    requires s'.queue == s.queue && s'.nextEntry == s.nextEntry && s'.lost == s.lost
    requires t in s'.threads && s'.threads == s.threads[t := s'.threads[t]] && Unfinished(s'.threads[t]) == moved
    requires forall c :: c in s'.batches <==> c in s.batches && (c == b ==> b in s'.batches)
    requires forall c :: c in s'.batches && c != b ==> s'.batches[c] == s.batches[c]
    requires moved <= Held(s.batches[b])
    requires (if b in s'.batches then Held(s'.batches[b]) else {}) == Held(s.batches[b]) - moved
    ensures QueueInv(s')
  {
    forall o, k: nat
      ensures Owns(s', o, k)
         <==> if o == ThreadOf(t) then k in moved else Owns(s, o, k) && !(o == BatchOf(b) && k in moved)
    {}
    TransferOwners(s, s', b, t, moved);
  }

  lemma {:induction false} TransferOwners(s: Sys, s': Sys, b: nat, t: nat, moved: set<nat>)
    requires QueueInv(s) && Structure(s') && s'.queue == s.queue && s'.nextEntry == s.nextEntry && s'.lost == s.lost
    requires forall k: nat :: !Owns(s, ThreadOf(t), k) && (k in moved ==> Owns(s, BatchOf(b), k))
    requires forall o, k: nat ::
               Owns(s', o, k)
               <==> if o == ThreadOf(t) then k in moved else Owns(s, o, k) && !(o == BatchOf(b) && k in moved)
    ensures QueueInv(s')
  {
    forall o, k: nat | Owns(s', o, k) ensures Claimed(s'.queue, s'.nextEntry, k) {
      assert Owns(s, if o == ThreadOf(t) then BatchOf(b) else o, k);
    }
    forall k | k in s'.queue && s'.queue[k].state == Queue.InProgress && k !in s'.lost
      ensures exists o :: Owns(s', o, k)
    {
      var o :| Owns(s, o, k);
      assert Owns(s', if k in moved then ThreadOf(t) else o, k);
    }
  }

  lemma {:induction false} FirstLeaves(todo: seq<Ticket>, held: seq<Ticket>)
    requires todo != [] && SoundTickets(todo + held)
    ensures SoundTickets(todo[1..] + held)
    ensures todo[0].key in KeysOf(todo + held) && KeysOf(todo[1..] + held) == KeysOf(todo + held) - {todo[0].key}
  {
    var a, b := todo + held, todo[1..] + held;
    assert a[0] == todo[0] && |b| == |a| - 1;
    assert forall i :: 0 <= i < |b| ==> b[i] == a[i + 1];
    forall k ensures k in KeysOf(b) <==> k in KeysOf(a) && k != todo[0].key {
      if i :| 0 < i < |a| && a[i].key == k { assert b[i - 1].key == k; }
    }
  }

  lemma {:induction false} TakeKeepsQueue(s: Sys, s': Sys, b: nat, t: nat, thread: Thread)
    requires QueueInv(s) && t !in s.threads && Ready(s, b) && s' == SetThread(Advance(s, b, t), t, thread)
    requires SoundThread(thread) && Unfinished(thread) == {s.batches[b].todo[0].key}
    ensures QueueInv(s')
  {
    FirstLeaves(s.batches[b].todo, s.batches[b].held);
    TransferKeeps(s, s', b, t, {s.batches[b].todo[0].key});
  }

  lemma {:induction false} FirstTicket(s: Sys, b: nat)
    requires QueueInv(s) && Ready(s, b)
    ensures s.batches[b].todo[0].entry.attempts < 3
  {
    assert (s.batches[b].todo + s.batches[b].held)[0] == s.batches[b].todo[0];
  }

  lemma {:induction false} TakeUploadKeeps(s: Sys, b: nat, t: nat, body: Content, seenRow: Option<Row>)
    requires QueueInv(s)
    ensures QueueInv(Take(s, b, t, body, seenRow))
  {
    if Take(s, b, t, body, seenRow) != s {
      FirstTicket(s, b);
      TakeKeepsQueue(s, Take(s, b, t, body, seenRow), b, t, Take(s, b, t, body, seenRow).threads[t]);
    }
  }

  lemma {:induction false} TakeOtherKeeps(s: Sys, b: nat, t: nat, done: bool, permanent: bool)
    requires QueueInv(s)
    ensures QueueInv(TakeNonUpload(s, b, t, done, permanent))
  {
    if TakeNonUpload(s, b, t, done, permanent) != s {
      var row := s.batches[b].todo[0];
      DoneScript(row.key, row.entry.inode);
      FailScript(row.key, row.entry.inode, OwnerOf(s, row.entry.inode), row.entry.attempts, permanent);
      TakeKeepsQueue(s, TakeNonUpload(s, b, t, done, permanent), b, t,
                     Script(OtherOps(s, row, done, permanent), 0, Finish));
    }
  }

  lemma {:induction false} RequeueAre(tickets: seq<Ticket>)
    ensures |RequeueOps(tickets)| == |tickets|
    ensures forall i :: 0 <= i < |tickets| ==>
              RequeueOps(tickets)[i] == UpdateEntry(tickets[i].key, Queue.Waiting, tickets[i].entry.attempts)
  {
    if tickets != [] { RequeueAre(tickets[1..]); }
  }

  lemma {:induction false} RequeueScript(tickets: seq<Ticket>)
    requires SoundTickets(tickets)
    ensures SoundScript(RequeueOps(tickets)) && Unfinished(Script(RequeueOps(tickets), 0, Finish)) == KeysOf(tickets)
  {
    RequeueAre(tickets);
    var ops := RequeueOps(tickets);
    forall k ensures k in KeysOf(tickets) ==> k in Unfinished(Script(ops, 0, Finish)) {
      if i :| 0 <= i < |tickets| && tickets[i].key == k { assert ops[i].UpdateEntry? && ops[i].entry == k; }
    }
  }

  lemma {:induction false} EndKeepsQueue(s: Sys, b: nat, t: nat)
    requires QueueInv(s)
    ensures QueueInv(End(s, b, t))
  {
    if t !in s.threads && b in s.batches && Idle(s, s.batches[b]) {
      var tickets := s.batches[b].todo + s.batches[b].held;
      RequeueScript(tickets);
      TransferKeeps(s, End(s, b, t), b, t, KeysOf(tickets));
    }
  }

  /** An upload whose file is in conflict is set aside, and stays claimed. */
  lemma {:induction false} HoldMoves(s: Sys, b: nat, seenRow: Option<Row>)
    requires Ready(s, b)
    ensures var s', first := Hold(s, b, seenRow), s.batches[b].todo[0];
            if first.entry.action == Queue.Upload && seenRow.Some? && seenRow.value.status == Conflict then
              && s' == s.(batches := s'.batches) && s'.batches.Keys == s.batches.Keys
              && s'.batches[b].todo == s.batches[b].todo[1..] && s'.batches[b].held == s.batches[b].held + [first]
              && forall c :: c in s.batches && c != b ==> s'.batches[c] == s.batches[c]
            else s' == s
  {
  }

  /** A start: nobody is at work, no row is claimed or lost, and those that were wait again with their attempts. */
  lemma {:induction false} RestartReleases(s: Sys)
    ensures var s' := Restarted(s);
            && s'.threads == map[] && s'.batches == map[] && s'.nodes == map[] && s'.lost == {}
            && s'.row == s.row && s'.disk == s.disk && s'.held == s.held && s'.queue.Keys == s.queue.Keys
            && forall k :: k in s.queue ==>
                 && s'.queue[k].attempts == s.queue[k].attempts && s'.queue[k].inode == s.queue[k].inode
                 && s'.queue[k].action == s.queue[k].action && s'.queue[k].state != Queue.InProgress
                 && (s.queue[k].state != Queue.InProgress ==> s'.queue[k] == s.queue[k])
                 && (s.queue[k].state == Queue.InProgress ==> s'.queue[k].state == Queue.Waiting)
  {
  }

  /** The rows, and no others, wait again with the attempts they were claimed with. */
  ghost predicate Returned(q: Queue.Table, q': Queue.Table, tickets: seq<Ticket>) {
    && q'.Keys == q.Keys
    && (forall i :: 0 <= i < |tickets| && tickets[i].key in q ==>
          q'[tickets[i].key] == q[tickets[i].key].(state := Queue.Waiting, attempts := tickets[i].entry.attempts))
    && (forall k :: k in q && k !in KeysOf(tickets) ==> q'[k] == q[k])
  }

  lemma {:induction false} ReturnsFold(c: Core, readOnly: bool, tickets: seq<Ticket>)
    requires SoundTickets(tickets)
    ensures var c' := CoreFold(c, readOnly, RequeueOps(tickets));
            Returned(c.queue, c'.queue, tickets) && c' == c.(queue := c'.queue)
    decreases |tickets|
  {
    if tickets != [] {
      var first, rest := tickets[0], tickets[1..];
      var op := UpdateEntry(first.key, Queue.Waiting, first.entry.attempts);
      TicketsRest(tickets);
      FoldCons(c, readOnly, op, RequeueOps(rest));
      ReturnsFold(CoreAfter(c, readOnly, op), readOnly, rest);
      ReturnedFirst(c.queue, CoreAfter(c, readOnly, op).queue, CoreFold(c, readOnly, RequeueOps(tickets)).queue,
                    tickets);
    }
  }

  lemma {:induction false} TicketsRest(tickets: seq<Ticket>)
    requires tickets != [] && SoundTickets(tickets)
    ensures SoundTickets(tickets[1..])
  {
    assert forall i :: 0 <= i < |tickets[1..]| ==> tickets[1..][i] == tickets[i + 1];
  }

  lemma {:induction false} ReturnedFirst(q: Queue.Table, q1: Queue.Table, q': Queue.Table, tickets: seq<Ticket>)
    requires tickets != [] && SoundTickets(tickets) && Returned(q1, q', tickets[1..])
    requires var k := tickets[0].key;
             q1 == if k in q then q[k := q[k].(state := Queue.Waiting, attempts := tickets[0].entry.attempts)] else q
    ensures Returned(q, q', tickets)
  {
    var rest := tickets[1..];
    assert forall i :: 0 <= i < |rest| ==> rest[i] == tickets[i + 1];
    assert tickets[0].key !in KeysOf(rest);
    forall k ensures k in KeysOf(tickets) <==> k == tickets[0].key || k in KeysOf(rest) {
      if i :| 0 <= i < |tickets| && tickets[i].key == k && i > 0 { assert rest[i - 1].key == k; }
    }
    forall i | 0 <= i < |tickets| && tickets[i].key in q
      ensures q'[tickets[i].key] == q[tickets[i].key].(state := Queue.Waiting, attempts := tickets[i].entry.attempts)
    {
      if i > 0 { assert rest[i - 1] == tickets[i] && tickets[i].key != tickets[0].key; }
    }
  }

  /** A processor that ends, undisturbed: every row it had not handed out waits again, as it was claimed. */
  lemma {:induction false} EndReturns(s: Sys, b: nat, t: nat)
    requires QueueInv(s) && t !in s.threads && b in s.batches && Idle(s, s.batches[b])
    ensures var tickets := s.batches[b].todo + s.batches[b].held;
            var s' := ExecMany(End(s, b, t), t, |tickets|);
            && Returned(s.queue, s'.queue, tickets) && b !in End(s, b, t).batches
            && s'.row == s.row && s'.disk == s.disk && s'.nodes == s.nodes
  {
    var tickets := s.batches[b].todo + s.batches[b].held;
    var ended := End(s, b, t);
    assert ended.threads[t] == Script(RequeueOps(tickets), 0, Finish);
    RequeueOnly(tickets);
    RequeueAre(tickets);
    ScriptLeaves(ended, t, RequeueOps(tickets), Finish, ExecMany(ended, t, |tickets|));
    ReturnsFold(CoreOf(ended), ended.readOnly, tickets);
  }

  // ---------------------------------------------------------------- statements

  lemma {:induction false} QueueOfOp(s: Sys, op: Op, returned: nat)
    ensures var s' := RunOp(s, op, returned).0;
            && (s'.queue, s'.nextEntry) == QueueAfter(s.queue, s.nextEntry, s.readOnly, op, returned)
            && s'.threads == s.threads && s'.batches == s.batches && s'.lost == s.lost
  {
    var s1 := RunRowOp(s, op, returned);
    RowOpFrame(s, op, returned);
    NodeOpFrame(RunQueueOp(s1, op, returned), op, returned);
  }

  /** Statements that close no row leave claimed rows claimed and claim none. */
  lemma {:induction false} OpenStatement(q: Queue.Table, next: nat, readOnly: bool, op: Op, returned: nat)
    requires SoundQueue(q, next) && !Closes(op)
    ensures var r := QueueAfter(q, next, readOnly, op, returned);
            && SoundQueue(r.0, r.1) && (forall k: nat :: Claimed(q, next, k) ==> Claimed(r.0, r.1, k))
            && (forall k :: k in r.0 && r.0[k].state == Queue.InProgress ==> k in q && q[k].state == Queue.InProgress)
  {
  }

  /** The statement that closes a row changes no other. */
  lemma {:induction false} ClosingStatement(q: Queue.Table, next: nat, readOnly: bool, op: Op, returned: nat)
    requires SoundQueue(q, next) && Closes(op)
    requires op.UpdateEntry? ==> op.state != Queue.InProgress && (op.state == Queue.GaveUp || op.attempts < 3)
    ensures var r := QueueAfter(q, next, readOnly, op, returned);
            && SoundQueue(r.0, r.1) && (forall k: nat :: k != op.entry && Claimed(q, next, k) ==> Claimed(r.0, r.1, k))
            && (forall k :: k in r.0 && r.0[k].state == Queue.InProgress ==>
                  k != op.entry && k in q && q[k].state == Queue.InProgress)
  {
  }

  lemma {:induction false} UnfinishedCons(op: Op, rest: seq<Op>, returned: nat, returned': nat, after: After)
    ensures Unfinished(Script([op] + rest, returned, after))
         == (if Closes(op) then {op.entry} else {}) + Unfinished(Script(rest, returned', after))
  {
    var ops := [op] + rest;
    assert ops[0] == op && forall i :: 0 <= i < |rest| ==> rest[i] == ops[i + 1];
    forall k | k in Unfinished(Script(rest, returned', after)) ensures k in Unfinished(Script(ops, returned, after)) {
      var i :| 0 <= i < |rest| && Closes(rest[i]) && rest[i].entry == k;
      assert Closes(ops[i + 1]) && ops[i + 1].entry == k;
    }
    if Closes(op) { assert Closes(ops[0]) && ops[0].entry == op.entry; }
  }

  lemma {:induction false} TailSound(op: Op, rest: seq<Op>)
    requires SoundScript([op] + rest)
    ensures SoundScript(rest)
    ensures Closes(op) ==> forall i :: 0 <= i < |rest| && Closes(rest[i]) ==> rest[i].entry != op.entry
  {
    var ops := [op] + rest;
    assert ops[0] == op && forall i :: 0 <= i < |rest| ==> rest[i] == ops[i + 1];
  }

  /** What remains of a script: its rows without the one that was closed. */
  lemma {:induction false} TailOwns(op: Op, rest: seq<Op>, returned: nat, returned': nat, after: After)
    requires SoundScript([op] + rest)
    ensures SoundScript(rest)
    ensures Unfinished(Script(rest, returned', after))
         == Unfinished(Script([op] + rest, returned, after)) - (if Closes(op) then {op.entry} else {})
  {
    TailSound(op, rest);
    UnfinishedCons(op, rest, returned, returned', after);
  }

  /** The row a statement closes loses its owner, and no other row does. */
  lemma {:induction false} StatementOwners(s: Sys, s': Sys, t: nat, op: Op, o: Owner, k: nat)
    requires Ownership(s) && t in s.threads && t in s'.threads
    requires s'.threads == s.threads[t := s'.threads[t]] && s'.batches == s.batches
    requires Closes(op) ==> Owns(s, ThreadOf(t), op.entry)
    requires Unfinished(s'.threads[t]) == Unfinished(s.threads[t]) - (if Closes(op) then {op.entry} else {})
    ensures Owns(s', o, k) <==> Owns(s, o, k) && !(Closes(op) && k == op.entry)
  {
    if o != ThreadOf(t) {
      assert Owns(s', o, k) <==> Owns(s, o, k) by {
        match o
        case ThreadOf(u) => assert u != t;
        case BatchOf(b) =>
      }
      assert Closes(op) && Owns(s, o, op.entry) ==> o == ThreadOf(t);
    }
  }

  /** One statement, seen from the owners. */
  lemma {:induction false} StatementKeeps(s: Sys, s': Sys, t: nat, op: Op, rest: seq<Op>, returned: nat)
    requires QueueInv(s) && t in s.threads && s.threads[t].Script? && s.threads[t].ops == [op] + rest
    requires (s'.queue, s'.nextEntry) == QueueAfter(s.queue, s.nextEntry, s.readOnly, op, s.threads[t].returned)
    requires s'.threads == s.threads[t := Script(rest, returned, s.threads[t].after)]
    requires s'.batches == s.batches && s'.lost == s.lost
    ensures QueueInv(s')
  {
    var script := s.threads[t];
    TailOwns(op, rest, script.returned, returned, script.after);
    assert script.ops[0] == op;
    if Closes(op) {
      ClosingStatement(s.queue, s.nextEntry, s.readOnly, op, script.returned);
      assert Owns(s, ThreadOf(t), op.entry);
    } else {
      OpenStatement(s.queue, s.nextEntry, s.readOnly, op, script.returned);
    }
    forall o, k: nat ensures Owns(s', o, k) <==> Owns(s, o, k) && !(Closes(op) && k == op.entry) {
      StatementOwners(s, s', t, op, o, k);
    }
    RowsStayOwned(s, s', if Closes(op) then {op.entry} else {});
  }

  /** Rows that were claimed and are still so keep their owners; the closed ones are no longer claimed. */
  lemma {:induction false} RowsStayOwned(s: Sys, s': Sys, closed: set<nat>)
    requires QueueInv(s) && Structure(s') && s'.lost == s.lost
    requires forall o, k: nat :: Owns(s', o, k) <==> Owns(s, o, k) && k !in closed
    requires forall k: nat :: k !in closed && Claimed(s.queue, s.nextEntry, k) ==> Claimed(s'.queue, s'.nextEntry, k)
    requires forall k :: k in s'.queue && s'.queue[k].state == Queue.InProgress ==>
               k !in closed && k in s.queue && s.queue[k].state == Queue.InProgress
    ensures QueueInv(s')
  {
    forall k | k in s'.queue && s'.queue[k].state == Queue.InProgress && k !in s'.lost
      ensures exists o :: Owns(s', o, k)
    {
      var o :| Owns(s, o, k);
      assert Owns(s', o, k);
    }
  }

  lemma {:induction false} ExecKeepsQueue(s: Sys, t: nat)
    requires QueueInv(s)
    ensures QueueInv(ExecThread(s, t))
  {
    if t in s.threads && s.threads[t].Script? && s.threads[t].ops != [] {
      var script := s.threads[t];
      if script.ops[0] == KeepCopy && s.disk.None? {
        AbortKeeps(s, t);
      } else {
        QueueOfOp(s, script.ops[0], script.returned);
        assert script.ops == [script.ops[0]] + script.ops[1..];
        StatementKeeps(s, ExecThread(s, t), t, script.ops[0], script.ops[1..],
                       RunOp(s, script.ops[0], script.returned).1);
      }
    }
  }

  /** A rename that finds no file aborts a script that had no row to close. */
  lemma {:induction false} AbortKeeps(s: Sys, t: nat)
    requires QueueInv(s) && t in s.threads && s.threads[t].Script?
    requires s.threads[t].ops != [] && s.threads[t].ops[0] == KeepCopy
    ensures QueueInv(SetThread(s, t, Script([], s.threads[t].returned, Finish)))
  {
    var script := s.threads[t];
    assert forall j :: 0 <= j < |script.ops| ==> script.ops[0].KeepCopy? && !Closes(script.ops[j]);
    OpenScript(script.ops, script.returned, script.after);
    OpenScript([], script.returned, Finish);
    IdleKeeps(s, SetThread(s, t, Script([], script.returned, Finish)), t);
  }

  // ---------------------------------------------------------------- runs

  lemma {:induction false} KillKeepsQueue(s: Sys, t: nat)
    requires QueueInv(s)
    ensures QueueInv(Kill(s, t))
  {
    if t in s.threads { OwnerGone(s, Kill(s, t), ThreadOf(t)); }
  }

  lemma {:induction false} KillBatchKeepsQueue(s: Sys, b: nat)
    requires QueueInv(s)
    ensures QueueInv(KillProcessor(s, b))
  {
    if b in s.batches { OwnerGone(s, KillProcessor(s, b), BatchOf(b)); }
  }

  /** A killed owner's rows are lost until the next start. */
  lemma {:induction false} OwnerGone(s: Sys, s': Sys, gone: Owner)
    requires QueueInv(s) && Structure(s') && s'.queue == s.queue && s'.nextEntry == s.nextEntry && s.lost <= s'.lost
    requires forall o, k: nat :: Owns(s', o, k) <==> Owns(s, o, k) && o != gone
    requires forall k: nat :: Owns(s, gone, k) ==> k in s'.lost
    ensures QueueInv(s')
  {
    forall k | k in s'.queue && s'.queue[k].state == Queue.InProgress && k !in s'.lost
      ensures exists o :: Owns(s', o, k)
    {
      var o :| Owns(s, o, k);
      assert Owns(s', o, k);
    }
  }

  lemma {:induction false} RestartKeepsQueue(s: Sys)
    requires QueueInv(s)
    ensures QueueInv(Restarted(s))
  {
  }

  /** Events that change neither queue nor owners. */
  lemma {:induction false} QuietKeepsQueue(s: Sys, s': Sys)
    requires QueueInv(s) && s'.queue == s.queue && s'.nextEntry == s.nextEntry
    requires s'.threads == s.threads && s'.batches == s.batches && s'.lost == s.lost
    ensures QueueInv(s')
  {
    SameOwners(s, s');
  }

  lemma {:induction false} QuietStep(h: Digest, s: Sys, e: Event)
    requires QueueInv(s) && (e.UserWrites? || e.UserDeletes? || e.ServerStores? || e.ServerAccepts?)
    ensures QueueInv(Perform(h, s, e))
  {
    QuietKeepsQueue(s, Perform(h, s, e));
  }

  lemma {:induction false} StepKeepsQueue(h: Digest, s: Sys, e: Event)
    requires QueueInv(s)
    ensures QueueInv(Perform(h, s, e))
  {
    if ByProcessor(e) {
      ProcessorStep(h, s, e);
    } else if e.Fetch? || e.FetchFails? || e.Publish? || e.CommitNode? || e.Reply? || e.Settle? {
      TransferStep(h, s, e);
    } else {
      match e
      case Start(t, seen, task) => StartKeepsQueue(h, s, t, seen, task);
      case Exec(t) => ExecKeepsQueue(s, t);
      case Cancel(t) => KillKeepsQueue(s, t);
      case KillBatch(b) => KillBatchKeepsQueue(s, b);
      case Restart => RestartKeepsQueue(s);
      case _ => QuietStep(h, s, e);
    }
  }

  lemma {:induction false} ProcessorStep(h: Digest, s: Sys, e: Event)
    requires QueueInv(s) && ByProcessor(e)
    ensures QueueInv(Perform(h, s, e))
  {
    match e
    case ClaimRows(b, keys) => ClaimKeepsQueue(s, b, keys);
    case HoldRow(b, seenRow) => HoldKeepsQueue(s, b, seenRow);
    case TakeUpload(b, t, body, seenRow) => TakeUploadKeeps(s, b, t, body, seenRow);
    case TakeOther(b, t, done, permanent) => TakeOtherKeeps(s, b, t, done, permanent);
    case EndBatch(b, t) => EndKeepsQueue(s, b, t);
  }

  lemma {:induction false} TransferStep(h: Digest, s: Sys, e: Event)
    requires QueueInv(s) && (e.Fetch? || e.FetchFails? || e.Publish? || e.CommitNode? || e.Reply? || e.Settle?)
    ensures QueueInv(Perform(h, s, e))
  {
    match e
    case Fetch(t, body) => FetchKeepsQueue(s, t, body, false);
    case FetchFails(t, permanent) => FetchKeepsQueue(s, t, [], permanent);
    case Publish(t, safe, ident, mtime) =>
      if t in s.threads && s.threads[t].Fetched? { PublishKeepsQueue(h, s, t, safe, LocalFile([], ident, mtime)); }
    case CommitNode(t) => if t in s.threads && s.threads[t].Published? { CommitKeepsQueue(h, s, t); }
    case Reply(t, etag, permanent) =>
      if t in s.threads && s.threads[t].Sending? { ReplyKeepsQueue(h, s, t, etag, permanent); }
    case Settle(t, seenDisk, moved) => SettleKeepsQueue(h, s, t, seenDisk, moved);
  }

  lemma {:induction false} RunKeepsQueue(h: Digest, disk: Option<LocalFile>, readOnly: bool, events: seq<Event>)
    ensures QueueInv(Run(h, Initial(disk, readOnly), events))
  {
    if events != [] {
      RunKeepsQueue(h, disk, readOnly, events[..|events| - 1]);
      StepKeepsQueue(h, Run(h, Initial(disk, readOnly), events[..|events| - 1]), events[|events| - 1]);
    }
  }

  /** No thread or processor is killed in the run. */
  predicate Unharmed(events: seq<Event>) {
    forall i :: 0 <= i < |events| ==> !events[i].Cancel? && !events[i].KillBatch?
  }

  lemma {:induction false} OnlyKillingLoses(h: Digest, s: Sys, e: Event)
    requires !e.Cancel? && !e.KillBatch?
    ensures Perform(h, s, e).lost <= s.lost
  {
    if e.Exec? && e.thread in s.threads && s.threads[e.thread].Script? && s.threads[e.thread].ops != [] {
      QueueOfOp(s, s.threads[e.thread].ops[0], s.threads[e.thread].returned);
    }
    if ByProcessor(e) { ProcessorFrame(h, s, e); }
  }

  lemma {:induction false} NothingLost(h: Digest, disk: Option<LocalFile>, readOnly: bool, events: seq<Event>)
    requires Unharmed(events)
    ensures Run(h, Initial(disk, readOnly), events).lost == {}
  {
    if events != [] {
      NothingLost(h, disk, readOnly, events[..|events| - 1]);
      OnlyKillingLoses(h, Run(h, Initial(disk, readOnly), events[..|events| - 1]), events[|events| - 1]);
    }
  }

  /**
   In every run: a live queue row has fewer than three attempts; no row has two owners; and a row in progress has an
   owner, a thread or a processor that will finish it or hand it back, unless that owner was killed since the last
   start.  In a run in which nothing was killed, a row is in progress exactly when it is there and owned.
   */
  lemma {:induction false} ClaimsAreOwned(h: Digest, disk: Option<LocalFile>, readOnly: bool, events: seq<Event>)
    ensures var s := Run(h, Initial(disk, readOnly), events);
            && (forall k :: k in s.queue && s.queue[k].state != Queue.GaveUp ==> s.queue[k].attempts < 3)
            && (forall o, p, k: nat :: Owns(s, o, k) && Owns(s, p, k) ==> o == p)
            && (forall k :: k in s.queue && s.queue[k].state == Queue.InProgress ==>
                  k in s.lost || exists o :: Owns(s, o, k))
            && (Unharmed(events) ==>
                  forall k :: k in s.queue ==> (s.queue[k].state == Queue.InProgress <==> exists o :: Owns(s, o, k)))
  {
    RunKeepsQueue(h, disk, readOnly, events);
    if Unharmed(events) { NothingLost(h, disk, readOnly, events); }
  }
}
