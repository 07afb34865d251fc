/** Cache eviction and blob garbage collection (internal/mount/cache/eviction.go). */
module Eviction {
  import opened CacheRow
  import opened Options
  import opened Sums

  type Rows = map<nat, Row>

  const EVICTION_BATCH: nat := 100

  function Weight(size: nat): nat { size }

  predicate TargetMet(target: Option<int>, bytes: int) { target.Some? && bytes <= target.value }

  predicate Eligible(r: Row) { r.cached && !r.dirty && !r.pinned }

  /** Some other cached row has this blob. */
  ghost predicate Shared(rows: Rows, hash: string, except: nat) {
    exists id :: id in rows && id != except && rows[id].cached && rows[id].contentHash == hash
  }

  /** A row that counts as cached has its blob. */
  predicate Backed(rows: Rows, blobs: map<string, nat>, id: nat)
    requires id in rows
  {
    rows[id].cached && rows[id].contentHash != "" ==> rows[id].contentHash in blobs
  }

  /** The first rows in the order of the eviction query. */
  ghost predicate Front(rows: Rows, ids: seq<nat>, limit: nat) {
    && |ids| <= limit
    && (forall i :: 0 <= i < |ids| ==> ids[i] in rows && Eligible(rows[ids[i]]))
    && (forall i, j :: 0 <= i < j < |ids| ==> ids[i] != ids[j] && rows[ids[i]].lastAccess <= rows[ids[j]].lastAccess)
    && (forall id, i :: id in rows && Eligible(rows[id]) && id !in ids && 0 <= i < |ids| ==>
          rows[ids[i]].lastAccess <= rows[id].lastAccess)
    && (|ids| < limit ==> forall id :: id in rows && Eligible(rows[id]) ==> id in ids)
  }

  /** The ids are the oldest eligible rows in order, the rest are the others. */
  ghost predicate Chosen(rows: Rows, ids: seq<nat>, rest: set<nat>) {
    && rest <= rows.Keys
    && (forall id :: id in rows && Eligible(rows[id]) <==> id in rest || id in ids)
    && (forall i :: 0 <= i < |ids| ==> ids[i] !in rest)
    && (forall i, j :: 0 <= i < j < |ids| ==> ids[i] != ids[j] && rows[ids[i]].lastAccess <= rows[ids[j]].lastAccess)
    && (forall i, k :: 0 <= i < |ids| && k in rest ==> rows[ids[i]].lastAccess <= rows[k].lastAccess)
  }

  lemma {:induction false} ChooseNext(rows: Rows, ids: seq<nat>, rest: set<nat>, k: nat)
    requires Chosen(rows, ids, rest) && k in rest && forall j :: j in rest ==> rows[k].lastAccess <= rows[j].lastAccess
    ensures Chosen(rows, ids + [k], rest - {k})
  {
    forall id ensures id in ids + [k] <==> id in ids || id == k {}
  }

  /** Nothing more can go: no candidate is left, or the whole front batch is in use. */
  ghost predicate Exhausted(rows: Rows, inUse: nat -> bool) {
    exists ids :: Front(rows, ids, EVICTION_BATCH) && forall i :: 0 <= i < |ids| ==> inUse(ids[i])
  }

  ghost predicate Referenced(rows: Rows, hash: string) {
    exists id :: id in rows && rows[id].cached && rows[id].contentHash == hash
  }

  /** What a run of evictions has done so far: exactly the rows in gone were invalidated. */
  ghost predicate Evicted(before: Rows, rows: Rows, inUse: nat -> bool, gone: set<nat>) {
    && rows.Keys == before.Keys && gone <= before.Keys
    && (forall id :: id in gone ==> Eligible(before[id]) && !inUse(id) && rows[id] == InvalidateCache(before[id]))
    && (forall id :: id in before && id !in gone ==> rows[id] == before[id])
  }

  /** Least recently used first: whoever could have gone and stayed was used no earlier. */
  ghost predicate OldestFirst(before: Rows, inUse: nat -> bool, gone: set<nat>) {
    && gone <= before.Keys
    && (forall g, s :: g in gone && s in before && s !in gone && Eligible(before[s]) && !inUse(s) ==>
          before[g].lastAccess <= before[s].lastAccess)
  }

  /** Blobs only disappear, and only when no cached row has them. */
  ghost predicate OnlyReleased(before: map<string, nat>, blobs: map<string, nat>, rows: Rows) {
    && (forall h :: h in blobs ==> h in before && blobs[h] == before[h])
    && (forall h, id :: h in before && h !in blobs && id in rows && rows[id].cached ==> rows[id].contentHash != h)
  }

  /** A cached row that is not gone has the blob. */
  ghost predicate Needed(before: Rows, gone: set<nat>, h: string) {
    exists id :: id in before && id !in gone && before[id].cached && before[id].contentHash == h
  }

  /** A row that is gone had it. */
  ghost predicate Freed(before: Rows, gone: set<nat>, h: string) {
    exists id :: id in gone && id in before && before[id].contentHash == h
  }

  /** The blobs that are left when exactly the rows in gone were evicted. */
  ghost function BlobsLeft(before: Rows, had: map<string, nat>, stuck: string -> bool,
                           gone: set<nat>): map<string, nat> {
    map h | h in had && (h == "" || stuck(h) || Needed(before, gone, h) || !Freed(before, gone, h)) :: had[h]
  }

  ghost predicate Progress(before: Rows, rows: Rows, had: map<string, nat>, blobs: map<string, nat>, inUse: nat -> bool,
                           stuck: string -> bool, gone: set<nat>)
  {
    && Evicted(before, rows, inUse, gone) && OldestFirst(before, inUse, gone)
    && blobs == BlobsLeft(before, had, stuck, gone)
  }

  /** Every eviction was needed: before the last one, of a row used last of all that went, the target was not met. */
  ghost predicate AllNeeded(target: Option<int>, before: Rows, had: map<string, nat>, stuck: string -> bool,
                            gone: set<nat>) {
    target.Some? && gone != {} ==> exists g :: LastGone(target.value, before, had, stuck, gone, g)
  }

  ghost predicate LastGone(target: int, before: Rows, had: map<string, nat>, stuck: string -> bool, gone: set<nat>,
                           g: nat) {
    && gone <= before.Keys && g in gone
    && (forall x :: x in gone ==> before[x].lastAccess <= before[g].lastAccess)
    && Sum(BlobsLeft(before, had, stuck, gone - {g}), Weight) > target
  }

  lemma {:induction false} NothingFreed(before: Rows, had: map<string, nat>, stuck: string -> bool)
    ensures BlobsLeft(before, had, stuck, {}) == had
  {
  }

  /** Evictions only make the store lighter, so those that were needed began above the target. */
  lemma {:induction false} LeftIsLighter(before: Rows, had: map<string, nat>, stuck: string -> bool, gone: set<nat>)
    ensures Sum(BlobsLeft(before, had, stuck, gone), Weight) <= Sum(had, Weight)
  {
    var left := BlobsLeft(before, had, stuck, gone);
    assert Within(had, left.Keys) == left;
    SumParts(had, Weight, left.Keys);
  }

  lemma {:induction false} NoneNeeded(target: Option<int>, before: Rows, had: map<string, nat>, stuck: string -> bool,
                                      gone: set<nat>)
    requires TargetMet(target, Sum(had, Weight))
    ensures AllNeeded(target, before, had, stuck, gone) ==> gone == {}
    ensures TargetMet(target, Sum(BlobsLeft(before, had, stuck, gone), Weight))
  {
    LeftIsLighter(before, had, stuck, gone);
    if AllNeeded(target, before, had, stuck, gone) && gone != {} {
      var g :| LastGone(target.value, before, had, stuck, gone, g);
      LeftIsLighter(before, had, stuck, gone - {g});
    }
  }

  /** Releasing the blob of one more row. */
  lemma {:induction false} OneFreed(before: Rows, rows: Rows, had: map<string, nat>, inUse: nat -> bool,
                                    stuck: string -> bool, gone: set<nat>, id: nat)
    requires Evicted(before, rows, inUse, gone) && id in rows && id !in gone && rows[id].cached
    ensures Released(rows, BlobsLeft(before, had, stuck, gone), stuck, rows[id].contentHash, id)
         == BlobsLeft(before, had, stuck, gone + {id})
  {
    var hash := rows[id].contentHash;
    var now := gone + {id};
    forall h ensures h in Released(rows, BlobsLeft(before, had, stuck, gone), stuck, hash, id)
                <==> h in BlobsLeft(before, had, stuck, now)
    {
      if h == hash {
        if hash != "" { SharedIsNeeded(before, rows, inUse, gone, id); }
        assert Freed(before, now, hash) && Needed(before, gone, hash);
      } else {
        OthersNeeded(before, gone, id, h);
      }
    }
  }

  lemma {:induction false} SharedIsNeeded(before: Rows, rows: Rows, inUse: nat -> bool, gone: set<nat>, id: nat)
    requires Evicted(before, rows, inUse, gone) && id in rows && id !in gone && rows[id].contentHash != ""
    ensures Shared(rows, rows[id].contentHash, id) <==> Needed(before, gone + {id}, rows[id].contentHash)
  {
    var hash := rows[id].contentHash;
    if x :| x in rows && x != id && rows[x].cached && rows[x].contentHash == hash {
      assert x !in gone + {id} && before[x] == rows[x];
    }
    if x :| x in before && x !in gone + {id} && before[x].cached && before[x].contentHash == hash {
      assert rows[x] == before[x];
    }
  }

  lemma {:induction false} OthersNeeded(before: Rows, gone: set<nat>, id: nat, h: string)
    requires id in before && before[id].contentHash != h
    ensures Needed(before, gone + {id}, h) <==> Needed(before, gone, h)
    ensures Freed(before, gone + {id}, h) <==> Freed(before, gone, h)
  {
  }

  lemma {:induction false} LeftIsReleased(before: Rows, rows: Rows, had: map<string, nat>, inUse: nat -> bool,
                                          stuck: string -> bool, gone: set<nat>)
    requires Evicted(before, rows, inUse, gone)
    ensures OnlyReleased(had, BlobsLeft(before, had, stuck, gone), rows)
  {
  }

  /** ReleaseBlob as a function. */
  ghost function Released(rows: Rows, blobs: map<string, nat>, stuck: string -> bool, hash: string,
                          except: nat): map<string, nat> {
    if hash == "" || Shared(rows, hash, except) || stuck(hash) then blobs else blobs - {hash}
  }

  /** Evicting a row that no remaining row is older than. */
  lemma {:induction false} EvictStep(before: Rows, rows: Rows, had: map<string, nat>, blobs: map<string, nat>,
                                     inUse: nat -> bool, stuck: string -> bool, gone: set<nat>, id: nat)
    requires Progress(before, rows, had, blobs, inUse, stuck, gone)
    requires id in rows && id !in gone && Eligible(rows[id]) && !inUse(id)
    requires forall s | s in rows && s !in gone && Eligible(rows[s]) && !inUse(s) ::
               rows[id].lastAccess <= rows[s].lastAccess
    ensures Progress(before, rows[id := InvalidateCache(rows[id])], had,
                     Released(rows, blobs, stuck, rows[id].contentHash, id), inUse, stuck, gone + {id})
  {
    OneFreed(before, rows, had, inUse, stuck, gone, id);
    var now := rows[id := InvalidateCache(rows[id])];
    assert Evicted(before, now, inUse, gone + {id});
    forall g, s | g in gone + {id} && s in before && s !in gone + {id} && Eligible(before[s]) && !inUse(s)
      ensures before[g].lastAccess <= before[s].lastAccess
    {
      assert rows[s] == before[s] && rows[id] == before[id];
    }
  }

  /** An eviction above the target, of a row no younger than the rest, is the new last one. */
  lemma {:induction false} OneMore(target: Option<int>, before: Rows, rows: Rows, had: map<string, nat>,
                                   blobs: map<string, nat>, inUse: nat -> bool, stuck: string -> bool, gone: set<nat>,
                                   id: nat)
    requires Progress(before, rows, had, blobs, inUse, stuck, gone) && !TargetMet(target, Sum(blobs, Weight))
    requires id in rows && id !in gone && Eligible(rows[id]) && !inUse(id)
    ensures AllNeeded(target, before, had, stuck, gone + {id})
  {
    assert gone + {id} - {id} == gone;
    if target.Some? { assert LastGone(target.value, before, had, stuck, gone + {id}, id); }
  }

  /** The first i candidates are in use or gone, and nobody else went. */
  ghost predicate Handled(ids: seq<nat>, i: nat, inUse: nat -> bool, gone0: set<nat>, gone: set<nat>) {
    && i <= |ids|
    && (forall x :: x in gone ==> x in gone0 || x in ids[..i])
    && (forall k :: 0 <= k < i ==> inUse(ids[k]) || ids[k] in gone)
  }

  lemma {:induction false} HandleNext(ids: seq<nat>, i: nat, inUse: nat -> bool, gone0: set<nat>, gone: set<nat>)
    requires i < |ids| && Handled(ids, i, inUse, gone0, gone)
    ensures inUse(ids[i]) ==> Handled(ids, i + 1, inUse, gone0, gone)
    ensures Handled(ids, i + 1, inUse, gone0, gone + {ids[i]})
  {
    assert ids[..i + 1] == ids[..i] + [ids[i]];
  }

  lemma {:induction false} NothingGone(before: Rows, start: Rows, rows: Rows, inUse: nat -> bool, ids: seq<nat>,
                                       gone: set<nat>)
    requires Evicted(before, start, inUse, gone) && Evicted(before, rows, inUse, gone)
    requires Front(start, ids, EVICTION_BATCH) && Handled(ids, |ids|, inUse, gone, gone)
    ensures Exhausted(rows, inUse)
  {
    assert rows == start && Front(rows, ids, EVICTION_BATCH);
  }

  /** The smallest such accident: one cached row, whose blob goes before the database refuses the row. */
  lemma {:induction false} RefusedRowLosesItsBlob(row: Row)
    requires row.cached && row.contentHash == "h"
    ensures Backed(map[1 := row], map["h" := 5], 1)
    ensures !Backed(map[1 := row], Released(map[1 := row], map["h" := 5], h => false, "h", 1), 1)
  {
  }

  /** The next candidate that is not in use is older than every row that could still go. */
  lemma {:induction false} NextOldest(before: Rows, start: Rows, rows: Rows, inUse: nat -> bool, ids: seq<nat>,
                                      gone0: set<nat>, gone: set<nat>,
                   i: nat)
    requires i < |ids| && Front(start, ids, EVICTION_BATCH) && gone0 <= gone && !inUse(ids[i])
    requires Evicted(before, start, inUse, gone0) && Evicted(before, rows, inUse, gone)
    requires Handled(ids, i, inUse, gone0, gone)
    ensures ids[i] in rows && ids[i] !in gone && Eligible(rows[ids[i]]) && |gone + {ids[i]}| == |gone| + 1
    ensures forall s :: s in rows && s !in gone && Eligible(rows[s]) && !inUse(s) ==>
              rows[ids[i]].lastAccess <= rows[s].lastAccess
  {
    var id := ids[i];
    assert id in start && Eligible(start[id]);
    assert id !in gone0;
    assert id !in ids[..i];
    assert rows[id] == start[id];
    forall s | s in rows && s !in gone && Eligible(rows[s]) && !inUse(s)
      ensures rows[id].lastAccess <= rows[s].lastAccess
    {
      assert rows[s] == start[s];
      if s in ids {
        var k :| 0 <= k < |ids| && ids[k] == s;
        assert k >= i;
      }
    }
  }

  /** While blobs are only released, cached rows keep theirs. */
  lemma {:induction false} StillBacked(before: Rows, rows: Rows, had: map<string, nat>, blobs: map<string, nat>,
                                       inUse: nat -> bool, stuck: string -> bool, gone: set<nat>)
    requires Progress(before, rows, had, blobs, inUse, stuck, gone)
    requires forall id :: id in before ==> Backed(before, had, id)
    ensures forall id :: id in rows ==> Backed(rows, blobs, id)
  {
    LeftIsReleased(before, rows, had, inUse, stuck, gone);
    forall id | id in rows ensures Backed(rows, blobs, id) { assert Backed(before, had, id); }
  }

  /** What is left when the database refuses the row behind a release: only that row can lack its blob. */
  lemma {:induction false} RefusedRow(rows: Rows, blobs: map<string, nat>, stuck: string -> bool, id: nat)
    requires id in rows && rows[id].cached && forall x :: x in rows ==> Backed(rows, blobs, x)
    ensures var left := Released(rows, blobs, stuck, rows[id].contentHash, id);
            && (forall x :: x in rows && x != id ==> Backed(rows, left, x))
            && (Backed(rows, left, id) <==>
                  rows[id].contentHash == "" || stuck(rows[id].contentHash) || Shared(rows, rows[id].contentHash, id))
  {
  }

  lemma {:induction false} Fewer(all: set<nat>, was: set<nat>, now: set<nat>)
    requires was <= now <= all && |was| < |now|
    ensures |all - now| < |all - was|
  {
    assert all == (all - now) + now && all == (all - was) + was;
    assert |all| == |all - now| + |now| && |all| == |all - was| + |was|;
  }

  lemma {:induction false} OldestExists(rows: Rows, s: set<nat>)
    requires s != {} && s <= rows.Keys
    ensures exists k :: k in s && forall j :: j in s ==> rows[k].lastAccess <= rows[j].lastAccess
  {
    var x :| x in s;
    if s != {x} {
      OldestExists(rows, s - {x});
      var k :| k in s - {x} && forall j :: j in s - {x} ==> rows[k].lastAccess <= rows[j].lastAccess;
      var least := if rows[x].lastAccess < rows[k].lastAccess then x else k;
      assert forall j :: j in s ==> j == x || j in s - {x};
      assert forall j :: j in s ==> rows[least].lastAccess <= rows[j].lastAccess;
    }
  }

  class Evictor {
    var rows: Rows
    var blobs: map<string, nat>
    var bytes: int
    const inUse: nat -> bool
    /** Blobs the file system refuses to delete, and rows whose update the database refuses. */
    const stuck: string -> bool
    const refused: nat -> bool

    constructor (rows: Rows, blobs: map<string, nat>, bytes: int, inUse: nat -> bool, stuck: string -> bool,
                 refused: nat -> bool)
      ensures this.rows == rows && this.blobs == blobs && this.bytes == bytes
      ensures this.inUse == inUse && this.stuck == stuck && this.refused == refused
    {
      this.rows, this.blobs, this.bytes := rows, blobs, bytes;
      this.inUse, this.stuck, this.refused := inUse, stuck, refused;
    }

    /** The byte counter of the store. */
    ghost predicate Counted()
      reads this
    {
      bytes == Sum(blobs, Weight)
    }

    /** Above the target, the database refused to invalidate id after its blob was released. */
    ghost predicate RefusedAt(target: Option<int>, before: Rows, had: map<string, nat>, gone: set<nat>, id: nat)
      reads this
    {
      var was := BlobsLeft(before, had, stuck, gone);
      && id in rows && Eligible(rows[id]) && !inUse(id) && refused(id) && !TargetMet(target, Sum(was, Weight))
      && Progress(before, rows, had, was, inUse, stuck, gone)
      && blobs == Released(rows, was, stuck, rows[id].contentHash, id)
    }

    /** Every row but id has its blob, and id has it exactly when the release had to leave it. */
    ghost predicate OnlyUnbacked(id: nat)
      reads this
    {
      && id in rows
      && (forall x :: x in rows && x != id ==> Backed(rows, blobs, x))
      && (Backed(rows, blobs, id) <==>
            rows[id].contentHash == "" || stuck(rows[id].contentHash) || Shared(rows, rows[id].contentHash, id))
    }

    /** What evictions have done: exactly the rows in gone, each needed, and perhaps a refused one behind them. */
    ghost predicate Outcome(target: Option<int>, before: Rows, had: map<string, nat>, failed: Option<nat>,
                            gone: set<nat>)
      reads this
    {
      && Counted() && AllNeeded(target, before, had, stuck, gone)
      && if failed.Some? then RefusedAt(target, before, had, gone, failed.value)
         else Progress(before, rows, had, blobs, inUse, stuck, gone)
    }

    lemma {:induction false} RefusedLeaves(target: Option<int>, before: Rows, had: map<string, nat>, gone: set<nat>,
                                           id: nat)
      requires RefusedAt(target, before, had, gone, id) && forall x :: x in before ==> Backed(before, had, x)
      ensures OnlyUnbacked(id)
    {
      var was := BlobsLeft(before, had, stuck, gone);
      StillBacked(before, rows, had, was, inUse, stuck, gone);
      RefusedRow(rows, was, stuck, id);
    }

    ghost predicate AllBacked()
      reads this
    {
      forall id :: id in rows ==> Backed(rows, blobs, id)
    }

    /** LRUEvictionCandidates: ties are broken in any way. */
    method Candidates(limit: nat) returns (ids: seq<nat>)
      ensures Front(rows, ids, limit)
    {
      ids := [];
      var rest := set id | id in rows && Eligible(rows[id]);
      while rest != {} && |ids| < limit
        invariant |ids| <= limit && Chosen(rows, ids, rest)
        decreases |rest|
      {
        OldestExists(rows, rest);
        var k :| k in rest && forall j :: j in rest ==> rows[k].lastAccess <= rows[j].lastAccess;
        ChooseNext(rows, ids, rest, k);
        ids := ids + [k];
        rest := rest - {k};
      }
    }

    /** ReleaseBlob: delete a blob unless another cached row has it. */
    method ReleaseBlob(hash: string, except: nat)
      requires Counted()
      modifies this`blobs, this`bytes
      ensures blobs == Released(rows, old(blobs), stuck, hash, except)
      ensures Counted()
    {
      if hash == "" { return; }
      var others := set id | id in rows && rows[id].cached && rows[id].contentHash == hash && id != except;
      if others != {} {
        var other :| other in others;
        return;
      }
      assert forall id | id in rows && id != except && rows[id].cached :: rows[id].contentHash == hash ==> id in others;
      if !stuck(hash) && hash in blobs {
        SumWithout(blobs, Weight, hash);
        bytes := bytes - blobs[hash];
        blobs := blobs - {hash};
      }
      assert hash !in old(blobs) ==> old(blobs) - {hash} == old(blobs);
    }

    /**
     evict with a target size, ForceEvict without one.  Only eligible rows that are not in use are invalidated,
     oldest first; the loop ends at the target, without candidates, or with a front batch that is all in use.
     */
    method Evict(target: Option<int>) returns (n: nat, failed: Option<nat>, ghost gone: set<nat>)
      requires Counted()
      modifies this
      ensures Counted() && |gone| == n
      ensures failed == None ==> Progress(old(rows), rows, old(blobs), blobs, inUse, stuck, gone)
      ensures failed == None ==> TargetMet(target, bytes) || Exhausted(rows, inUse)
      ensures TargetMet(target, old(bytes)) ==> gone == {} && failed == None
      ensures AllNeeded(target, old(rows), old(blobs), stuck, gone)
      ensures failed == None && old(AllBacked()) ==> AllBacked()
      ensures failed.Some? ==> RefusedAt(target, old(rows), old(blobs), gone, failed.value)
      ensures failed.Some? && old(AllBacked()) ==> OnlyUnbacked(failed.value)
    {
      n, failed, gone := EvictBatches(target);
      if TargetMet(target, old(bytes)) { NoneNeeded(target, old(rows), old(blobs), stuck, gone); }
      if old(AllBacked()) {
        if failed.Some? {
          RefusedLeaves(target, old(rows), old(blobs), gone, failed.value);
        } else {
          StillBacked(old(rows), rows, old(blobs), blobs, inUse, stuck, gone);
        }
      }
    }

    /** The loop of evict and ForceEvict. */
    method EvictBatches(target: Option<int>) returns (n: nat, failed: Option<nat>, ghost gone: set<nat>)
      requires Counted()
      modifies this
      ensures |gone| == n && Outcome(target, old(rows), old(blobs), failed, gone)
      ensures failed == None ==> TargetMet(target, bytes) || Exhausted(rows, inUse)
    {
      n, failed, gone := 0, None, {};
      NothingFreed(rows, blobs, stuck);
      ghost var before, had := rows, blobs;
      var done := TargetMet(target, bytes);
      while !done
        invariant |gone| == n && Outcome(target, before, had, failed, gone) && (failed.Some? ==> done)
        invariant done && failed == None ==> TargetMet(target, bytes) || Exhausted(rows, inUse)
        decreases !done, |before.Keys - gone|
      {
        done, n, failed, gone := EvictSome(n, target, before, had, gone);
      }
    }

    /** One round of that loop. */
    method EvictSome(m: nat, target: Option<int>, ghost before: Rows, ghost had: map<string, nat>,
                     ghost gone0: set<nat>)
        returns (done: bool, n: nat, failed: Option<nat>, ghost gone: set<nat>)
      requires |gone0| == m && Outcome(target, before, had, None, gone0)
      modifies this
      ensures |gone| == n && Outcome(target, before, had, failed, gone) && (failed.Some? ==> done)
      ensures done && failed == None ==> TargetMet(target, bytes) || Exhausted(rows, inUse)
      ensures !done ==> |before.Keys - gone| < |before.Keys - gone0|
    {
      var ids := Candidates(EVICTION_BATCH);
      var k;
      k, failed, gone := EvictBatch(ids, target, before, had, gone0);
      n := m + k;
      done := failed.Some? || k == 0 || TargetMet(target, bytes);
    }

    /** RunIfNeeded: nothing happens below the maximum. */
    method RunIfNeeded(maxSize: int, target: int) returns (n: nat, failed: Option<nat>, ghost gone: set<nat>)
      requires Counted()
      modifies this
      ensures Counted() && |gone| == n
      ensures old(bytes) <= maxSize ==> n == 0 && failed == None && rows == old(rows) && blobs == old(blobs)
      ensures failed == None ==> Progress(old(rows), rows, old(blobs), blobs, inUse, stuck, gone)
      ensures failed == None && old(bytes) > maxSize ==> bytes <= target || Exhausted(rows, inUse)
      ensures AllNeeded(Some(target), old(rows), old(blobs), stuck, gone)
      ensures failed == None && old(AllBacked()) ==> AllBacked()
      ensures failed.Some? ==> RefusedAt(Some(target), old(rows), old(blobs), gone, failed.value)
      ensures failed.Some? && old(AllBacked()) ==> OnlyUnbacked(failed.value)
    {
      NothingFreed(rows, blobs, stuck);
      if bytes <= maxSize { return 0, None, {}; }
      n, failed, gone := Evict(Some(target));
    }

    /** GCOrphans: exactly the blobs no cached row has are deleted, as far as the file system allows. */
    method GCOrphans() returns (swept: nat)
      requires Counted()
      modifies this`blobs, this`bytes
      ensures Counted() && swept == |old(blobs)| - |blobs|
      ensures forall h :: h in blobs <==> h in old(blobs) && (h == "" || stuck(h) || Referenced(rows, h))
      ensures forall h :: h in blobs ==> blobs[h] == old(blobs)[h]
      ensures old(AllBacked()) ==> AllBacked()
    {
      swept := 0;
      var referenced := set id | id in rows && rows[id].cached && rows[id].contentHash != "" :: rows[id].contentHash;
      var todo := blobs.Keys;
      while todo != {}
        invariant todo <= blobs.Keys <= old(blobs).Keys && Counted() && swept == |old(blobs)| - |blobs|
        invariant forall h :: h in old(blobs) && h !in todo ==>
                    (h in blobs <==> h == "" || stuck(h) || h in referenced)
        invariant forall h :: h in blobs ==> blobs[h] == old(blobs)[h]
        decreases |todo|
      {
        var h :| h in todo;
        todo := todo - {h};
        if h !in referenced && h != "" && !stuck(h) {
          SumWithout(blobs, Weight, h);
          bytes := bytes - blobs[h];
          blobs := blobs - {h};
          swept := swept + 1;
        }
      }
      forall h | h != "" ensures h in referenced <==> Referenced(rows, h) {}
      if old(AllBacked()) {
        forall id | id in rows ensures Backed(rows, blobs, id) { assert Backed(rows, old(blobs), id); }
      }
    }

    /** The candidate loop of evict and ForceEvict; without a target it never looks at the size. */
    method EvictBatch(ids: seq<nat>, target: Option<int>, ghost before: Rows, ghost had: map<string, nat>,
                      ghost gone0: set<nat>)
      returns (n: nat, failed: Option<nat>, ghost gone: set<nat>)
      requires Front(rows, ids, EVICTION_BATCH) && Outcome(target, before, had, None, gone0)
      modifies this
      ensures |gone| == |gone0| + n && Outcome(target, before, had, failed, gone)
      ensures failed == None && n == 0 ==> TargetMet(target, bytes) || Exhausted(rows, inUse)
      ensures failed == None && n > 0 ==> |before.Keys - gone| < |before.Keys - gone0|
    {
      n, failed, gone := 0, None, gone0;
      var i := 0;
      while i < |ids|
        invariant 0 <= i <= |ids| && |gone| == |gone0| + n && failed == None && (n == 0 ==> gone == gone0)
        invariant Going(ids, i, target, before, old(rows), had, gone0, gone)
      {
        if TargetMet(target, bytes) { break; }
        if inUse(ids[i]) {
          HandleNext(ids, i, inUse, gone0, gone);
        } else {
          var ok := EvictNext(ids, i, target, before, old(rows), had, gone0, gone);
          if !ok { return n, Some(ids[i]), gone; }
          n, gone := n + 1, gone + {ids[i]};
        }
        i := i + 1;
      }
      if n > 0 {
        Fewer(before.Keys, gone0, gone);
      } else if i == |ids| {
        NothingGone(before, old(rows), rows, inUse, ids, gone0);
      }
    }

    /** Before candidate i of a batch. */
    ghost predicate Going(ids: seq<nat>, i: nat, target: Option<int>, before: Rows, start: Rows, had: map<string, nat>,
                          gone0: set<nat>, gone: set<nat>)
      reads this
    {
      gone0 <= gone && Handled(ids, i, inUse, gone0, gone) && Outcome(target, before, had, None, gone)
    }

    /** The next candidate of a batch, which is not in use. */
    method EvictNext(ids: seq<nat>, i: nat, ghost target: Option<int>, ghost before: Rows, ghost start: Rows,
                     ghost had: map<string, nat>, ghost gone0: set<nat>, ghost gone: set<nat>) returns (ok: bool)
      requires i < |ids| && Front(start, ids, EVICTION_BATCH) && Evicted(before, start, inUse, gone0)
      requires Going(ids, i, target, before, start, had, gone0, gone) && !inUse(ids[i]) && !TargetMet(target, bytes)
      modifies this
      ensures ok ==> Going(ids, i + 1, target, before, start, had, gone0, gone + {ids[i]})
      ensures |gone + {ids[i]}| == |gone| + 1
      ensures !ok ==> Outcome(target, before, had, Some(ids[i]), gone)
    {
      HandleNext(ids, i, inUse, gone0, gone);
      NextOldest(before, start, rows, inUse, ids, gone0, gone, i);
      ok := EvictOne(ids[i], target, before, had, gone);
    }

    /** One eviction: release the blob, then invalidate the row. */
    method EvictOne(id: nat, ghost target: Option<int>, ghost before: Rows, ghost had: map<string, nat>,
                    ghost gone: set<nat>) returns (ok: bool)
      requires Counted() && Progress(before, rows, had, blobs, inUse, stuck, gone)
      requires id in rows && id !in gone && Eligible(rows[id]) && !inUse(id) && !TargetMet(target, bytes)
      requires forall s | s in rows && s !in gone && Eligible(rows[s]) && !inUse(s) ::
                 rows[id].lastAccess <= rows[s].lastAccess
      modifies this
      ensures Counted()
      ensures AllNeeded(target, before, had, stuck, gone + {id})
      ensures ok ==> Progress(before, rows, had, blobs, inUse, stuck, gone + {id})
      ensures !ok ==> RefusedAt(target, before, had, gone, id)
    {
      EvictStep(before, rows, had, blobs, inUse, stuck, gone, id);
      OneMore(target, before, rows, had, blobs, inUse, stuck, gone, id);
      ReleaseBlob(rows[id].contentHash, id);
      if refused(id) { return false; }
      rows := rows[id := InvalidateCache(rows[id])];
      ok := true;
    }
  }
}
