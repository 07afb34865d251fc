/**
 The tables of internal/mount/cache/db.go as an object: inode rows and write-back rows, each keyed by its
 id.  Statements on inode rows apply the functions of CacheRow.
 */
module CacheDb {
  import opened Options
  import opened CacheRow
  import Queue
  import opened Sums

  /** A write-back row that DequeueWriteback may claim. */
  predicate Claimable(e: Queue.Entry, claimBefore: int) {
    e.state == Queue.Waiting && e.enqueuedAt <= claimBefore
  }

  /** ORDER BY enqueued_at ASC, id ASC. */
  predicate Before(q: Queue.Table, j: nat, k: nat)
    requires j in q && k in q
  {
    q[j].enqueuedAt < q[k].enqueuedAt || (q[j].enqueuedAt == q[k].enqueuedAt && j < k)
  }

  ghost predicate IsFirst(q: Queue.Table, ks: set<nat>, k: nat)
    requires ks <= q.Keys
  {
    k in ks && forall j :: j in ks && j != k ==> Before(q, k, j)
  }

  lemma {:induction false} FirstExists(q: Queue.Table, ks: set<nat>)
    requires ks != {} && ks <= q.Keys
    ensures exists k :: IsFirst(q, ks, k)
    decreases |ks|
  {
    var x :| x in ks;
    if ks == {x} {
      assert IsFirst(q, ks, x);
    } else {
      var rest := ks - {x};
      FirstExists(q, rest);
      var y :| IsFirst(q, rest, y);
      assert forall j :: j in ks ==> j == x || j in rest;
      assert IsFirst(q, ks, if Before(q, x, y) then x else y);
    }
  }

  /** What a claim takes: the first claimable rows, up to the limit, each once; the order among them is open. */
  ghost predicate FirstClaimable(q: Queue.Table, ks: seq<nat>, limit: nat, claimBefore: int) {
    && |ks| <= limit && (forall i, j :: 0 <= i < j < |ks| ==> ks[i] != ks[j])
    && (forall k :: k in ks ==> k in q && Claimable(q[k], claimBefore))
    && (forall k :: k in q && Claimable(q[k], claimBefore) && k !in ks ==>
          |ks| == limit && forall j :: j in ks ==> Before(q, j, k))
  }

  /** The claim's effect: the chosen rows become in progress. */
  function Claimed(q: Queue.Table, ks: set<nat>): Queue.Table {
    map k | k in q :: if k in ks then q[k].(state := Queue.InProgress) else q[k]
  }

  /** Retries left on a row that is still alive. */
  function Effort(e: Queue.Entry): nat {
    if e.state == Queue.GaveUp || e.attempts >= 3 then 0 else 3 - e.attempts
  }

  lemma {:induction false} ClaimKeepsEffort(q: Queue.Table, ks: set<nat>)
    requires forall k :: k in ks && k in q ==> q[k].state == Queue.Waiting
    ensures Sum(Claimed(q, ks), Effort) == Sum(q, Effort)
  {
    SumSame(Claimed(q, ks), q, Effort);
  }

  class CacheDB {
    var rows: map<nat, Row>
    var queue: Queue.Table
    var nextEntry: nat
    var writebackDisabled: bool

    /** A live row has attempts left, and ids are never reused. */
    ghost predicate Valid()
      reads this
    {
      && (forall k :: k in queue && queue[k].state != Queue.GaveUp ==> queue[k].attempts < 3)
      && (forall k :: k in queue ==> k < nextEntry)
    }

    ghost function Work(): nat
      reads this
    {
      Sum(queue, Effort)
    }

    constructor (disabled: bool)
      ensures Valid() && rows == map[] && queue == map[] && writebackDisabled == disabled
    {
      rows, queue, nextEntry, writebackDisabled := map[], map[], 1, disabled;
    }

    /** UPDATE inodes ... WHERE id = ?. */
    method UpdateInode(id: nat, f: Row -> Row)
      modifies this`rows
      ensures rows == if id in old(rows) then old(rows)[id := f(old(rows)[id])] else old(rows)
    {
      if id in rows { rows := rows[id := f(rows[id])]; }
    }

    method EnqueueWriteback(inode: nat, action: Queue.Action, now: int) returns (ok: bool)
      requires Valid()
      modifies this`queue, this`nextEntry
      ensures Valid()
      ensures ok == !writebackDisabled
      ensures !ok ==> queue == old(queue) && nextEntry == old(nextEntry)
      ensures ok ==> nextEntry == old(nextEntry) + 1
      ensures ok ==> queue == Queue.Enqueue(old(queue), old(nextEntry), inode, action, now)
    {
      if writebackDisabled { return false; }
      queue := Queue.Enqueue(queue, nextEntry, inode, action, now);
      nextEntry := nextEntry + 1;
      return true;
    }

    /** Claims the first rows, in queue order, up to the limit. */
    method DequeueWriteback(limit: nat, claimBefore: int) returns (claimed: seq<nat>)
      requires Valid()
      modifies this`queue
      ensures Valid()
      ensures FirstClaimable(old(queue), claimed, limit, claimBefore)
      ensures queue == Claimed(old(queue), set k | k in claimed)
      ensures Work() == old(Work())
    {
      claimed := [];
      ghost var q := queue;
      var waiting := set k | k in queue && Claimable(queue[k], claimBefore);
      while |claimed| < limit && waiting != {}
        invariant |claimed| <= limit && queue == q
        invariant forall i, j :: 0 <= i < j < |claimed| ==> claimed[i] != claimed[j]
        invariant forall k :: k in claimed ==> k in q && Claimable(q[k], claimBefore) && k !in waiting
        invariant forall k :: k in waiting <==> k in q && Claimable(q[k], claimBefore) && k !in claimed
        invariant forall i, k :: 0 <= i < |claimed| && k in waiting ==> Before(q, claimed[i], k)
        decreases |waiting|
      {
        FirstExists(q, waiting);
        ghost var first :| IsFirst(q, waiting, first);
        var k :| k in waiting && forall j :: j in waiting && j != k ==> Before(queue, k, j);
        claimed := claimed + [k];
        waiting := waiting - {k};
      }
      queue := Claimed(queue, set k | k in claimed);
      ClaimKeepsEffort(q, set k | k in claimed);
    }

    /** UpdateWriteback and DeferWriteback: no effect when the row is gone. */
    method UpdateWriteback(k: nat, state: Queue.State, attempts: nat, enqueuedAt: Option<int>)
      modifies this`queue
      ensures queue == if k !in old(queue) then old(queue)
                       else old(queue)[k := old(queue)[k].(state := state, attempts := attempts,
                              enqueuedAt := if enqueuedAt.Some? then enqueuedAt.value else old(queue)[k].enqueuedAt)]
    {
      if k in queue {
        var e := queue[k];
        queue := queue[k := e.(state := state, attempts := attempts,
                               enqueuedAt := if enqueuedAt.Some? then enqueuedAt.value else e.enqueuedAt)];
      }
    }

    method DeleteWriteback(k: nat)
      modifies this`queue
      ensures queue == old(queue) - {k}
    {
      queue := queue - {k};
    }

    method RequeueInProgress()
      requires Valid()
      modifies this`queue
      ensures Valid() && queue == Queue.RequeueInProgress(old(queue))
      ensures forall k :: k in queue ==> queue[k].state != Queue.InProgress
    {
      queue := Queue.RequeueInProgress(queue);
    }
  }
}
