/**
 What a flush does to each file: every entry that has its turn is settled by its own world, nothing touches a file
 between its turns, and no pending edit is dropped from the queue.
 */
module Flush {
  import opened Options
  import opened CacheRow
  import Queue
  import opened CacheDb
  import opened SyncState
  import opened Writeback

  // ---------------------------------------------------------------- one entry, outright

  /** The uploaded file or its node changed while it was sent. */
  predicate Overtaken(c: Setting, tracked: bool, d: Done) {
    && d.entry.action == Queue.Upload && d.world.outcome.Confirmed?
    && ((c.syncMode && d.world.localDigest != Some(d.world.outcome.digest)) || (tracked && d.world.generationMoved))
  }

  /** A failed entry is still queued, with one attempt more; a confirmed one is gone, or followed up. */
  ghost predicate QueueOutcome(c: Setting, tracked: bool, q: Queue.Table, d: Done) {
    match d.world.outcome
    case Error(permanent, delay) =>
      && d.key in q && q[d.key].inode == d.entry.inode && q[d.key].action == d.entry.action
      && q[d.key].attempts == d.entry.attempts + 1
      && (if d.entry.attempts >= 2 || permanent then q[d.key].state == Queue.GaveUp
          else q[d.key].state == Queue.Waiting && q[d.key].enqueuedAt == d.world.now + delay)
    case Confirmed(_, _) =>
      && d.key !in q
      && (Overtaken(c, tracked, d) && c.writable ==>
            exists j: nat :: FollowsUp(c, q, j, d))
  }

  /** A new upload waits, or a delete when the file is gone. */
  predicate FollowsUp(c: Setting, q: Queue.Table, j: nat, d: Done) {
    var action := if c.syncMode && d.world.localDigest.None? then Queue.Delete else Queue.Upload;
    j in q && q[j] == Queue.Entry(d.entry.inode, action, d.world.now, 0, Queue.Waiting)
  }

  /** A failed entry keeps the edit pending; a confirmed upload is the new baseline and ends the edit it was. */
  ghost predicate RowOutcome(c: Setting, tracked: bool, before: Row, after: Row, d: Done) {
    match d.world.outcome
    case Error(permanent, _) =>
      && after.dirty == before.dirty && Baseline(after) == Baseline(before) && after.etag == before.etag
      && after.status == (if d.entry.attempts >= 2 || permanent then Failed else Pending)
    case Confirmed(digest, etag) =>
      && after.dirty == Overtaken(c, tracked, d)
      && after.status == (if Overtaken(c, tracked, d) then Pending else Synced)
      && (d.entry.action == Queue.Upload && digest != "" ==>
            Baseline(after) == digest && after.localEtag == etag && after.etag == etag)
  }

  // ---------------------------------------------------------------- one turn

  function OfFile(q: Queue.Table, f: nat): Queue.Table { map k | k in q && q[k].inode == f :: q[k] }

  /** Nothing of the file changed. */
  ghost predicate Untouched(l: Ledger, l': Ledger, f: nat) {
    && OfFile(l.queue, f) == OfFile(l'.queue, f) && (f in l'.nodes <==> f in l.nodes)
    && (f in l'.rows <==> f in l.rows) && (f in l.rows ==> l'.rows[f] == l.rows[f])
  }

  lemma {:induction false} UntouchedOn(l: Ledger, m: Ledger, n: Ledger, f: nat)
    requires Untouched(l, m, f) && Untouched(m, n, f)
    ensures Untouched(l, n, f)
  {
  }

  /** The turn of another file's entry, or one that is held back. */
  lemma {:induction false} TurnElsewhere(c: Setting, l: Ledger, k: nat, f: nat)
    requires Sound(l) && k in l.queue && (HeldBack(l, k) || l.queue[k].inode != f)
    ensures Untouched(l, Turned(c, l, k), f)
  {
  }

  function DoneAt(c: Setting, l: Ledger, k: nat): Done
    requires k in l.queue
  {
    Done(k, l.queue[k], c.env(|l.log|))
  }

  lemma {:induction false} TurnQueue(c: Setting, l: Ledger, k: nat)
    requires Sound(l) && k in l.queue && !HeldBack(l, k) && l.queue[k].state == Queue.InProgress
    ensures QueueOutcome(c, l.queue[k].inode in l.nodes, Turned(c, l, k).queue, DoneAt(c, l, k))
    ensures Turned(c, l, k).log == l.log + [DoneAt(c, l, k)]
  {
    var d := DoneAt(c, l, k);
    if Overtaken(c, d.entry.inode in l.nodes, d) && c.writable {
      assert FollowsUp(c, Turned(c, l, k).queue, l.next, d);
    }
  }

  lemma {:induction false} TurnRow(c: Setting, l: Ledger, k: nat)
    requires k in l.queue && !HeldBack(l, k) && l.queue[k].inode in l.rows
    ensures var f := l.queue[k].inode;
            && f in Turned(c, l, k).rows
            && RowOutcome(c, f in l.nodes, l.rows[f], Turned(c, l, k).rows[f], DoneAt(c, l, k))
  {
  }

  /** After a confirmed upload, and when an entry is given up, row and node of the file agree. */
  lemma {:induction false} TurnAgrees(c: Setting, l: Ledger, k: nat)
    requires k in l.queue && !HeldBack(l, k) && l.queue[k].inode in l.rows && l.queue[k].inode in l.nodes
    requires var e, w := l.queue[k], c.env(|l.log|);
             if w.outcome.Confirmed? then e.action == Queue.Upload && w.outcome.digest != ""
             else e.attempts >= 2 || w.outcome.permanent
    ensures var r, n := Turned(c, l, k).rows[l.queue[k].inode], Turned(c, l, k).nodes[l.queue[k].inode];
            && n.status == r.status
            && (c.env(|l.log|).outcome.Confirmed? ==> n.dirty == r.dirty && n.etag == r.etag)
            && (!c.env(|l.log|).outcome.Confirmed? ==>
                  n.dirty == l.nodes[l.queue[k].inode].dirty && n.etag == l.nodes[l.queue[k].inode].etag)
  {
  }

  /** Rows and nodes stay, the log only grows, and ids are never reused. */
  ghost predicate Later(l: Ledger, l': Ledger) {
    && l'.rows.Keys == l.rows.Keys && l'.nodes.Keys == l.nodes.Keys && l'.next >= l.next && l.log <= l'.log
    && (forall k :: k in l'.queue && k < l.next ==> k in l.queue && l'.queue[k].inode == l.queue[k].inode)
  }

  lemma {:induction false} LaterOn(l: Ledger, m: Ledger, n: Ledger)
    requires Later(l, m) && Later(m, n)
    ensures Later(l, n)
  {
  }

  lemma {:induction false} TurnLater(c: Setting, l: Ledger, k: nat)
    ensures Later(l, Turned(c, l, k))
  {
  }

  // ---------------------------------------------------------------- one batch

  /** The j-th turn leaves the file alone. */
  ghost predicate Quiet(c: Setting, l: Ledger, entries: seq<nat>, j: nat, f: nat)
    requires j < |entries|
  {
    entries[j] in l.queue && entries[j] in Batched(c, l, entries, j).queue
    && (l.queue[entries[j]].inode != f || HeldBack(Batched(c, l, entries, j), entries[j]))
  }

  lemma {:induction false} QuietTurns(c: Setting, l: Ledger, entries: seq<nat>, m: nat, n: nat, f: nat)
    requires InBatch(l.queue, entries) && Sound(l) && m <= n <= |entries|
    requires forall j :: m <= j < n ==> Quiet(c, l, entries, j, f)
    ensures Untouched(Batched(c, l, entries, m), Batched(c, l, entries, n), f)
  {
    if m < n {
      var j := n - 1;
      QuietTurns(c, l, entries, m, j, f);
      assert Quiet(c, l, entries, j, f);
      NextIsClaimed(c, l, entries, j);
      NextIsSound(c, l, entries, j);
      BatchedNext(c, l, entries, j);
      TurnElsewhere(c, Batched(c, l, entries, j), entries[j], f);
      UntouchedOn(Batched(c, l, entries, m), Batched(c, l, entries, j), Batched(c, l, entries, n), f);
    }
  }

  lemma {:induction false} BatchLater(c: Setting, l: Ledger, entries: seq<nat>, m: nat, n: nat)
    requires m <= n <= |entries|
    ensures Later(Batched(c, l, entries, m), Batched(c, l, entries, n))
  {
    if m < n {
      BatchLater(c, l, entries, m, n - 1);
      BatchedNext(c, l, entries, n - 1);
      TurnLater(c, Batched(c, l, entries, n - 1), entries[n - 1]);
      LaterOn(Batched(c, l, entries, m), Batched(c, l, entries, n - 1), Batched(c, l, entries, n));
    }
  }

  lemma {:induction false} RoundLater(c: Setting, l: Ledger, r: Round)
    requires r.turns <= |r.claimed|
    ensures Later(l, Rounded(c, l, r))
  {
    var started := l.(queue := Claimed(l.queue, set k | k in r.claimed));
    BatchLater(c, started, r.claimed, 0, r.turns);
  }

  /** Every turn that is not held back is in the log, in its place. */
  lemma {:induction false} TurnLogged(c: Setting, l: Ledger, entries: seq<nat>, j: nat, n: nat)
    requires InBatch(l.queue, entries) && Sound(l) && j < n <= |entries|
    ensures var b := Batched(c, l, entries, j);
            && entries[j] in b.queue && b.queue[entries[j]] == l.queue[entries[j]]
            && (!HeldBack(b, entries[j]) ==>
                  && |b.log| < |Batched(c, l, entries, n).log|
                  && Batched(c, l, entries, n).log[|b.log|] == Done(entries[j], l.queue[entries[j]], c.env(|b.log|)))
  {
    NextIsClaimed(c, l, entries, j);
    BatchedNext(c, l, entries, j);
    BatchLater(c, l, entries, j + 1, n);
    var b := Batched(c, l, entries, j);
    if !HeldBack(b, entries[j]) {
      TurnQueue(c, b, entries[j]) by { BatchKeeps(c, l, entries, j); }
      assert Batched(c, l, entries, n).log[|b.log|] == Batched(c, l, entries, j + 1).log[|b.log|];
    }
  }

  /** And everything the batch logs is the turn of one of its entries. */
  lemma {:induction false} LoggedTurn(c: Setting, l: Ledger, entries: seq<nat>, n: nat, i: nat) returns (j: nat)
    requires InBatch(l.queue, entries) && Sound(l) && n <= |entries|
    requires |l.log| <= i < |Batched(c, l, entries, n).log|
    ensures j < n && |Batched(c, l, entries, j).log| == i
    ensures entries[j] in Batched(c, l, entries, j).queue && !HeldBack(Batched(c, l, entries, j), entries[j])
  {
    BatchedNext(c, l, entries, n - 1);
    NextIsClaimed(c, l, entries, n - 1);
    TurnCounts(c, Batched(c, l, entries, n - 1), entries[n - 1]);
    if i < |Batched(c, l, entries, n - 1).log| { j := LoggedTurn(c, l, entries, n - 1, i); } else { j := n - 1; }
  }

  /** What is still in the file's queue rows after its last turn is what that turn left. */
  lemma {:induction false} OutcomeStays(c: Setting, tracked: bool, q: Queue.Table, q': Queue.Table, d: Done)
    requires QueueOutcome(c, tracked, q, d) && OfFile(q, d.entry.inode) == OfFile(q', d.entry.inode)
    requires d.key in q' ==> q'[d.key].inode == d.entry.inode
    ensures QueueOutcome(c, tracked, q', d)
  {
    var f := d.entry.inode;
    assert forall k :: k in q && q[k].inode == f ==> k in OfFile(q', f) && q'[k] == q[k];
    assert forall k :: k in q' && q'[k].inode == f ==> k in OfFile(q, f);
    if d.world.outcome.Confirmed? && Overtaken(c, tracked, d) && c.writable {
      var j: nat :| FollowsUp(c, q, j, d);
      assert FollowsUp(c, q', j, d);
    }
  }

  ghost predicate AreClaimed(q: Queue.Table, ks: seq<nat>) {
    forall k :: k in ks ==> k in q && q[k].state == Queue.InProgress
  }

  /** Handing rows back touches none that is settled or new. */
  lemma {:induction false} ReleaseOutcome(c: Setting, tracked: bool, q0: Queue.Table, q: Queue.Table, ks: seq<nat>,
                                          d: Done)
    requires QueueOutcome(c, tracked, q, d)
    requires AreClaimed(q, ks)
    ensures QueueOutcome(c, tracked, Released(q, ks, q0), d)
  {
    if d.world.outcome.Confirmed? && Overtaken(c, tracked, d) && c.writable {
      var j: nat :| FollowsUp(c, q, j, d);
      assert FollowsUp(c, Released(q, ks, q0), j, d);
    }
  }

  /** The last turn of a file in a batch decides what the batch leaves in the queue for its entry. */
  lemma {:induction false} EntryOutcome(c: Setting, l: Ledger, entries: seq<nat>, n: nat, j: nat, d: Done)
    requires InBatch(l.queue, entries) && Sound(l) && j < n <= |entries|
    requires entries[j] in Batched(c, l, entries, j).queue && !HeldBack(Batched(c, l, entries, j), entries[j])
    requires d == Done(entries[j], l.queue[entries[j]], c.env(|Batched(c, l, entries, j).log|))
    requires forall i :: j < i < n ==> Quiet(c, l, entries, i, d.entry.inode)
    ensures QueueOutcome(c, d.entry.inode in l.nodes, Ended(c, l, entries, n).queue, d)
  {
    EntryTurned(c, l, entries, j, d);
    QuietTurns(c, l, entries, j + 1, n, d.entry.inode);
    BatchLater(c, l, entries, j + 1, n);
    ReturnedClaimed(c, l, entries, n);
    OutcomeEnds(c, d.entry.inode in l.nodes, l.queue, Batched(c, l, entries, j + 1), Batched(c, l, entries, n),
                entries[n..] + Batched(c, l, entries, n).held, d);
  }

  lemma {:induction false} EntryTurned(c: Setting, l: Ledger, entries: seq<nat>, j: nat, d: Done)
    requires InBatch(l.queue, entries) && Sound(l) && j < |entries|
    requires entries[j] in Batched(c, l, entries, j).queue && !HeldBack(Batched(c, l, entries, j), entries[j])
    requires d == Done(entries[j], l.queue[entries[j]], c.env(|Batched(c, l, entries, j).log|))
    ensures var after := Batched(c, l, entries, j + 1);
            QueueOutcome(c, d.entry.inode in l.nodes, after.queue, d) && d.key < after.next
  {
    NextIsClaimed(c, l, entries, j);
    BatchKeeps(c, l, entries, j);
    BatchLater(c, l, entries, 0, j);
    BatchedNext(c, l, entries, j);
    TurnQueue(c, Batched(c, l, entries, j), entries[j]);
    TurnLater(c, Batched(c, l, entries, j), entries[j]);
  }

  lemma {:induction false} OutcomeEnds(c: Setting, tracked: bool, q0: Queue.Table, after: Ledger, last: Ledger,
                                       ks: seq<nat>, d: Done)
    requires QueueOutcome(c, tracked, after.queue, d) && d.key < after.next
    requires Untouched(after, last, d.entry.inode) && Later(after, last)
    requires AreClaimed(last.queue, ks)
    ensures QueueOutcome(c, tracked, Released(last.queue, ks, q0), d)
  {
    OutcomeStays(c, tracked, after.queue, last.queue, d);
    ReleaseOutcome(c, tracked, q0, last.queue, ks, d);
  }

  lemma {:induction false} ReturnedClaimed(c: Setting, l: Ledger, entries: seq<nat>, n: nat)
    requires InBatch(l.queue, entries) && Sound(l) && n <= |entries|
    ensures var b := Batched(c, l, entries, n); AreClaimed(b.queue, entries[n..] + b.held)
  {
    BatchKeeps(c, l, entries, n);
    assert forall k :: k in entries[n..] ==> k in entries;
  }

  /** Turns whose log has nothing of the file are quiet for it. */
  lemma {:induction false} QuietFrom(c: Setting, l: Ledger, entries: seq<nat>, m: nat, n: nat, f: nat)
    requires InBatch(l.queue, entries) && Sound(l) && m <= n <= |entries|
    requires var log := Batched(c, l, entries, n).log;
             forall i :: |Batched(c, l, entries, m).log| <= i < |log| ==> log[i].entry.inode != f
    ensures forall j :: m <= j < n ==> Quiet(c, l, entries, j, f)
  {
    forall j | m <= j < n ensures Quiet(c, l, entries, j, f) {
      TurnLogged(c, l, entries, j, n);
      BatchLater(c, l, entries, m, j);
    }
  }

  // ---------------------------------------------------------------- one round

  lemma {:induction false} ClaimedSound(l: Ledger, claimed: seq<nat>, claimBefore: int)
    requires Sound(l) && FirstClaimable(l.queue, claimed, BATCH, claimBefore)
    ensures var started := l.(queue := Claimed(l.queue, set k | k in claimed));
            Sound(started) && InBatch(started.queue, claimed)
  {
  }

  lemma {:induction false} RoundOutcome(c: Setting, l: Ledger, r: Round, claimBefore: int, i: nat)
    requires Sound(l) && FirstClaimable(l.queue, r.claimed, BATCH, claimBefore) && r.turns <= |r.claimed|
    requires var log := Rounded(c, l, r).log;
             |l.log| <= i < |log| && forall j :: i < j < |log| ==> log[j].entry.inode != log[i].entry.inode
    ensures var next := Rounded(c, l, r);
            QueueOutcome(c, next.log[i].entry.inode in l.nodes, next.queue, next.log[i]) && next.log[i].key < l.next
  {
    var started := l.(queue := Claimed(l.queue, set k | k in r.claimed));
    ClaimedSound(l, r.claimed, claimBefore);
    BatchOutcome(c, started, r.claimed, r.turns, i);
  }

  lemma {:induction false} BatchOutcome(c: Setting, l: Ledger, entries: seq<nat>, n: nat, i: nat)
    requires InBatch(l.queue, entries) && Sound(l) && n <= |entries|
    requires var log := Batched(c, l, entries, n).log;
             |l.log| <= i < |log| && forall j :: i < j < |log| ==> log[j].entry.inode != log[i].entry.inode
    ensures var d := Batched(c, l, entries, n).log[i];
            QueueOutcome(c, d.entry.inode in l.nodes, Ended(c, l, entries, n).queue, d) && d.key < l.next
  {
    var d := Batched(c, l, entries, n).log[i];
    var j := LoggedTurn(c, l, entries, n, i);
    TurnLogged(c, l, entries, j, n);
    BatchedNext(c, l, entries, j);
    TurnCounts(c, Batched(c, l, entries, j), entries[j]);
    QuietFrom(c, l, entries, j + 1, n, d.entry.inode);
    EntryOutcome(c, l, entries, n, j, d);
  }

  /** A round that logs nothing of a file leaves it alone. */
  lemma {:induction false} RoundElsewhere(c: Setting, l: Ledger, r: Round, claimBefore: int, f: nat)
    requires Sound(l) && FirstClaimable(l.queue, r.claimed, BATCH, claimBefore) && r.turns <= |r.claimed|
    requires var log := Rounded(c, l, r).log; forall i :: |l.log| <= i < |log| ==> log[i].entry.inode != f
    ensures Untouched(l, Rounded(c, l, r), f)
  {
    var started := l.(queue := Claimed(l.queue, set k | k in r.claimed));
    var b := Batched(c, started, r.claimed, r.turns);
    ClaimedSound(l, r.claimed, claimBefore);
    QuietFrom(c, started, r.claimed, 0, r.turns, f);
    QuietTurns(c, started, r.claimed, 0, r.turns, f);
    BatchKeeps(c, started, r.claimed, r.turns);
    HandedBack(l, started, b, r, f);
  }

  lemma {:induction false} HandedBack(l: Ledger, started: Ledger, b: Ledger, r: Round, f: nat)
    requires r.turns <= |r.claimed| && forall k :: k in r.claimed ==> k in l.queue && l.queue[k].state == Queue.Waiting
    requires started == l.(queue := Claimed(l.queue, set k | k in r.claimed))
    requires OfFile(started.queue, f) == OfFile(b.queue, f)
    requires Midway(started.queue, b.queue, r.claimed, r.turns, b.held)
    ensures OfFile(Released(b.queue, r.claimed[r.turns..] + b.held, started.queue), f) == OfFile(l.queue, f)
  {
    var ks := r.claimed[r.turns..] + b.held;
    var q, mine := Released(b.queue, ks, started.queue), OfFile(b.queue, f);
    forall k ensures k in OfFile(q, f) <==> k in mine {}
    forall k ensures k in OfFile(l.queue, f) <==> k in OfFile(started.queue, f) {}
    forall k | k in mine ensures q[k] == l.queue[k] {
      assert k in OfFile(started.queue, f) && mine[k] == OfFile(started.queue, f)[k];
      assert k in r.claimed <==> k in ks by { Returned(started.queue, b.queue, r, b.held, k); }
    }
  }

  /** Of the rows claimed, those still in progress are the ones handed back. */
  lemma {:induction false} Returned(q0: Queue.Table, q: Queue.Table, r: Round, held: seq<nat>, k: nat)
    requires r.turns <= |r.claimed| && Midway(q0, q, r.claimed, r.turns, held) && k in q
    requires k in r.claimed ==> q[k].state == Queue.InProgress
    ensures k in r.claimed <==> k in r.claimed[r.turns..] + held
  {
    assert r.claimed == r.claimed[..r.turns] + r.claimed[r.turns..];
  }

  // ---------------------------------------------------------------- a file's row

  /** The row after the logged entries of its file, one after the other. */
  function RowFold(c: Setting, tracked: bool, r: Row, log: seq<Done>, f: nat): Row {
    if log == [] then r
    else
      var before, d := RowFold(c, tracked, r, log[..|log| - 1], f), log[|log| - 1];
      if d.entry.inode == f then SettledRow(before, d.entry, d.world, Overtaken(c, tracked, d)) else before
  }

  ghost predicate Booked(c: Setting, tracked: bool, r: Row, l: Ledger, f: nat) {
    f in l.rows && tracked == (f in l.nodes) && l.rows[f] == RowFold(c, tracked, r, l.log, f)
  }

  lemma {:induction false} TurnBooked(c: Setting, tracked: bool, r: Row, l: Ledger, k: nat, f: nat)
    requires Booked(c, tracked, r, l, f)
    ensures Booked(c, tracked, r, Turned(c, l, k), f)
  {
    if k in l.queue && !HeldBack(l, k) { assert Turned(c, l, k).log[..|l.log|] == l.log; }
  }

  lemma {:induction false} BatchBooked(c: Setting, tracked: bool, r: Row, l: Ledger, entries: seq<nat>, n: nat, f: nat)
    requires Booked(c, tracked, r, l, f) && n <= |entries|
    ensures Booked(c, tracked, r, Batched(c, l, entries, n), f)
  {
    if n > 0 {
      BatchBooked(c, tracked, r, l, entries, n - 1, f);
      BatchedNext(c, l, entries, n - 1);
      TurnBooked(c, tracked, r, Batched(c, l, entries, n - 1), entries[n - 1], f);
    }
  }

  /** Over a whole flush, a row is what the processed entries of its file made of it, one after the other. */
  lemma {:induction false} FlushBooked(c: Setting, tracked: bool, r: Row, l: Ledger, history: seq<Round>, f: nat)
    requires Booked(c, tracked, r, l, f) && Proper(history)
    ensures Booked(c, tracked, r, Flushed(c, l, history), f)
  {
    if history != [] {
      var n := |history| - 1;
      FlushBooked(c, tracked, r, l, history[..n], f);
      var before := Flushed(c, l, history[..n]);
      BatchBooked(c, tracked, r, before.(queue := Claimed(before.queue, set k | k in history[n].claimed)),
                  history[n].claimed, history[n].turns, f);
    }
  }

  lemma {:induction false} FoldOutcome(c: Setting, tracked: bool, r: Row, log: seq<Done>, i: nat, f: nat)
    requires i < |log| && log[i].entry.inode == f && forall j :: i < j < |log| ==> log[j].entry.inode != f
    ensures RowOutcome(c, tracked, RowFold(c, tracked, r, log[..i], f), RowFold(c, tracked, r, log, f), log[i])
  {
    var n := |log| - 1;
    if i < n {
      assert log[..n][..i] == log[..i];
      FoldOutcome(c, tracked, r, log[..n], i, f);
    }
  }

  /** A pending edit ends in a fold only at a confirmed entry that nothing has overtaken. */
  lemma {:induction false} FoldCleans(c: Setting, tracked: bool, r: Row, log: seq<Done>, f: nat)
    requires r.dirty && !RowFold(c, tracked, r, log, f).dirty
    ensures exists i :: 0 <= i < |log| && Cleans(c, tracked, log[i], f)
  {
    var n := |log| - 1;
    if RowFold(c, tracked, r, log[..n], f).dirty {
      assert Cleans(c, tracked, log[n], f);
    } else {
      FoldCleans(c, tracked, r, log[..n], f);
      var i :| 0 <= i < n && Cleans(c, tracked, log[..n][i], f);
      assert Cleans(c, tracked, log[i], f);
    }
  }

  predicate Cleans(c: Setting, tracked: bool, d: Done, f: nat) {
    d.entry.inode == f && d.world.outcome.Confirmed? && !Overtaken(c, tracked, d)
  }

  // ---------------------------------------------------------------- a whole flush

  lemma {:induction false} FlushStep(c: Setting, l: Ledger, history: seq<Round>, clock: nat -> int)
    requires Sound(l) && Proper(history) && Claims(c, l, history, clock) && history != []
    ensures var n := |history| - 1;
            var before := Flushed(c, l, history[..n]);
            && Sound(before) && FirstClaimable(before.queue, history[n].claimed, BATCH, clock(n))
            && Flushed(c, l, history) == Rounded(c, before, history[n])
            && Later(before, Flushed(c, l, history))
  {
    FlushKeeps(c, l, history[..|history| - 1], clock);
    RoundLater(c, Flushed(c, l, history[..|history| - 1]), history[|history| - 1]);
  }

  lemma {:induction false} FlushLater(c: Setting, l: Ledger, history: seq<Round>)
    requires Proper(history)
    ensures Later(l, Flushed(c, l, history))
  {
    if history != [] {
      var n := |history| - 1;
      FlushLater(c, l, history[..n]);
      RoundLater(c, Flushed(c, l, history[..n]), history[n]);
      LaterOn(l, Flushed(c, l, history[..n]), Flushed(c, l, history));
    }
  }

  /** The world of the i-th processed entry is the i-th world. */
  lemma {:induction false} BatchWorlds(c: Setting, l: Ledger, entries: seq<nat>, n: nat)
    requires n <= |entries| && forall i :: 0 <= i < |l.log| ==> l.log[i].world == c.env(i)
    ensures var log := Batched(c, l, entries, n).log; forall i :: 0 <= i < |log| ==> log[i].world == c.env(i)
  {
    if n > 0 { BatchWorlds(c, l, entries, n - 1); }
  }

  lemma {:induction false} WorldsInOrder(c: Setting, l: Ledger, history: seq<Round>)
    requires l.log == [] && Proper(history)
    ensures var log := Flushed(c, l, history).log; forall i :: 0 <= i < |log| ==> log[i].world == c.env(i)
  {
    if history != [] {
      var n := |history| - 1;
      WorldsInOrder(c, l, history[..n]);
      var before := Flushed(c, l, history[..n]);
      BatchWorlds(c, before.(queue := Claimed(before.queue, set k | k in history[n].claimed)), history[n].claimed,
                  history[n].turns);
    }
  }

  /** A file none of whose entries was processed is as it was. */
  lemma {:induction false} FileLeftAlone(c: Setting, l: Ledger, history: seq<Round>, clock: nat -> int, f: nat)
    requires Sound(l) && Proper(history) && Claims(c, l, history, clock)
    requires var log := Flushed(c, l, history).log; forall i :: |l.log| <= i < |log| ==> log[i].entry.inode != f
    ensures Untouched(l, Flushed(c, l, history), f)
  {
    if history != [] {
      var n := |history| - 1;
      FlushStep(c, l, history, clock);
      FlushLater(c, l, history[..n]);
      var before, after := Flushed(c, l, history[..n]), Flushed(c, l, history);
      assert forall i :: 0 <= i < |before.log| ==> before.log[i] == after.log[i];
      FileLeftAlone(c, l, history[..n], clock, f);
      RoundElsewhere(c, before, history[n], clock(n), f);
      UntouchedOn(l, before, after, f);
    }
  }

  lemma {:induction false} LastQueueOutcome(c: Setting, l: Ledger, history: seq<Round>, clock: nat -> int, i: nat)
    requires Sound(l) && Proper(history) && Claims(c, l, history, clock)
    requires var log := Flushed(c, l, history).log;
             |l.log| <= i < |log| && forall j :: i < j < |log| ==> log[j].entry.inode != log[i].entry.inode
    ensures var next := Flushed(c, l, history);
            && QueueOutcome(c, next.log[i].entry.inode in l.nodes, next.queue, next.log[i])
            && next.log[i].key < next.next
  {
    var n := |history| - 1;
    FlushStep(c, l, history, clock);
    FlushLater(c, l, history[..n]);
    var before, after := Flushed(c, l, history[..n]), Flushed(c, l, history);
    if i < |before.log| {
      assert forall j :: 0 <= j < |before.log| ==> before.log[j] == after.log[j];
      LastQueueOutcome(c, l, history[..n], clock, i);
      OutcomeKept(c, before, after, history[n], clock(n), before.log[i]);
    } else {
      RoundOutcome(c, before, history[n], clock(n), i);
    }
  }

  lemma {:induction false} OutcomeKept(c: Setting, before: Ledger, after: Ledger, r: Round, claimBefore: int, d: Done)
    requires Sound(before) && FirstClaimable(before.queue, r.claimed, BATCH, claimBefore) && r.turns <= |r.claimed|
    requires after == Rounded(c, before, r) && Later(before, after) && d.key < before.next
    requires forall i :: |before.log| <= i < |after.log| ==> after.log[i].entry.inode != d.entry.inode
    requires QueueOutcome(c, d.entry.inode in before.nodes, before.queue, d)
    ensures QueueOutcome(c, d.entry.inode in before.nodes, after.queue, d)
  {
    RoundElsewhere(c, before, r, claimBefore, d.entry.inode);
    OutcomeStays(c, d.entry.inode in before.nodes, before.queue, after.queue, d);
  }

  /**
   The theorem.  The last entry of a file that a flush processes decides what the flush leaves of it: a failed one is
   still queued with one attempt more and its edit is pending; a confirmed one is out of the queue, its digest is the
   baseline, and the row is clean unless the file changed meanwhile, which is then queued again.
   */
  lemma {:induction false} LastAttemptDecides(c: Setting, start: Ledger, history: seq<Round>, clock: nat -> int, i: nat,
                                              f: nat)
    requires Sound(start) && start.log == [] && Proper(history) && Claims(c, start, history, clock)
    requires var log := Flushed(c, start, history).log;
             i < |log| && log[i].entry.inode == f && forall j :: i < j < |log| ==> log[j].entry.inode != f
    ensures var end := Flushed(c, start, history);
            var d, tracked := end.log[i], f in start.nodes;
            && d.world == c.env(i) && QueueOutcome(c, tracked, end.queue, d)
            && (f in start.rows ==>
                  && f in end.rows
                  && RowOutcome(c, tracked, RowFold(c, tracked, start.rows[f], end.log[..i], f), end.rows[f], d))
  {
    var end, tracked := Flushed(c, start, history), f in start.nodes;
    WorldsInOrder(c, start, history);
    LastQueueOutcome(c, start, history, clock, i);
    if f in start.rows {
      FlushBooked(c, tracked, start.rows[f], start, history, f);
      FoldOutcome(c, tracked, start.rows[f], end.log, i, f);
    }
  }

  /** A flush ends a pending edit only by a confirmed entry of its file that nothing has overtaken. */
  lemma {:induction false} EditEndsConfirmed(c: Setting, start: Ledger, history: seq<Round>, f: nat)
    requires start.log == [] && Proper(history) && f in start.rows && start.rows[f].dirty
    ensures var end := Flushed(c, start, history);
            && f in end.rows
            && (!end.rows[f].dirty ==> exists i :: 0 <= i < |end.log| && Cleans(c, f in start.nodes, end.log[i], f))
  {
    var end, tracked := Flushed(c, start, history), f in start.nodes;
    FlushBooked(c, tracked, start.rows[f], start, history, f);
    if !end.rows[f].dirty { FoldCleans(c, tracked, start.rows[f], end.log, f); }
  }

  // ---------------------------------------------------------------- no edit is dropped

  ghost predicate HasEntry(q: Queue.Table, f: nat) { exists k: nat :: k in q && q[k].inode == f }

  /** Whatever is to be sent has an entry, alive or given up. */
  ghost predicate EditQueued(l: Ledger, f: nat) { f in l.rows && l.rows[f].dirty ==> HasEntry(l.queue, f) }

  lemma {:induction false} TurnKeepsEdit(c: Setting, l: Ledger, k: nat, f: nat)
    requires Sound(l) && c.writable && EditQueued(l, f) && (k in l.queue ==> l.queue[k].state == Queue.InProgress)
    ensures EditQueued(Turned(c, l, k), f)
  {
    var l' := Turned(c, l, k);
    if k in l.queue && !HeldBack(l, k) && f in l'.rows && l'.rows[f].dirty {
      if l.queue[k].inode == f {
        TurnQueue(c, l, k);
        TurnRow(c, l, k);
        assert l.next in l'.queue ==> l'.queue[l.next].inode == f;
      } else {
        TurnElsewhere(c, l, k, f);
        var j: nat :| j in l.queue && l.queue[j].inode == f;
        assert j in OfFile(l.queue, f) && j in OfFile(l'.queue, f);
      }
    }
  }

  lemma {:induction false} NextIsSound(c: Setting, l: Ledger, entries: seq<nat>, n: nat)
    requires InBatch(l.queue, entries) && Sound(l) && n < |entries|
    ensures var b := Batched(c, l, entries, n);
            Sound(b) && entries[n] in b.queue && b.queue[entries[n]].state == Queue.InProgress
  {
    BatchKeeps(c, l, entries, n);
    NextIsClaimed(c, l, entries, n);
  }

  lemma {:induction false} BatchKeepsEdit(c: Setting, l: Ledger, entries: seq<nat>, n: nat, f: nat)
    requires InBatch(l.queue, entries) && Sound(l) && n <= |entries| && c.writable && EditQueued(l, f)
    ensures EditQueued(Batched(c, l, entries, n), f)
  {
    if n > 0 {
      var m := n - 1;
      BatchKeepsEdit(c, l, entries, m, f);
      NextIsSound(c, l, entries, m);
      BatchedNext(c, l, entries, m);
      TurnKeepsEdit(c, Batched(c, l, entries, m), entries[m], f);
    }
  }

  lemma {:induction false} SameFiles(q: Queue.Table, q': Queue.Table, f: nat)
    requires q.Keys <= q'.Keys && (forall k :: k in q ==> q'[k].inode == q[k].inode) && HasEntry(q, f)
    ensures HasEntry(q', f)
  {
    var k: nat :| k in q && q[k].inode == f;
    assert k in q' && q'[k].inode == f;
  }

  lemma {:induction false} RoundKeepsEdit(c: Setting, l: Ledger, r: Round, claimBefore: int, f: nat)
    requires Sound(l) && FirstClaimable(l.queue, r.claimed, BATCH, claimBefore) && r.turns <= |r.claimed|
    requires c.writable && EditQueued(l, f)
    ensures EditQueued(Rounded(c, l, r), f)
  {
    var started := l.(queue := Claimed(l.queue, set k | k in r.claimed));
    var b := Batched(c, started, r.claimed, r.turns);
    ClaimedSound(l, r.claimed, claimBefore);
    if HasEntry(l.queue, f) { SameFiles(l.queue, started.queue, f); }
    BatchKeepsEdit(c, started, r.claimed, r.turns, f);
    if HasEntry(b.queue, f) { SameFiles(b.queue, Rounded(c, l, r).queue, f); }
  }

  /** If every pending edit had a queue entry before a flush on a writable mount, it has one after. */
  lemma {:induction false} NoEditDropped(c: Setting, l: Ledger, history: seq<Round>, clock: nat -> int, f: nat)
    requires Sound(l) && Proper(history) && Claims(c, l, history, clock) && c.writable && EditQueued(l, f)
    ensures EditQueued(Flushed(c, l, history), f)
  {
    if history != [] {
      var n := |history| - 1;
      NoEditDropped(c, l, history[..n], clock, f);
      FlushStep(c, l, history, clock);
      RoundKeepsEdit(c, Flushed(c, l, history[..n]), history[n], clock(n), f);
    }
  }
}
