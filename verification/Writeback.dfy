/**
 The write-back processor (internal/mount/syncer/writeback.go): one entry, one batch and a whole flush.
 What the network, the local folder and the clock answer while the i-th entry is processed is World i; the
 context is a number of checks it survives.
 */
module Writeback {
  import opened Options
  import opened CacheRow
  import Queue
  import opened Sums
  import opened CacheDb
  import opened SyncState

  const BATCH := 10
  const MAX_RETRIES := 3

  datatype Outcome =
    | Confirmed(digest: string, etag: string)
    | Error(permanent: bool, delay: nat)

  /** localDigest is the digest of the local file after the upload, None when the file is gone. */
  datatype World = World(outcome: Outcome, localDigest: Option<string>, generationMoved: bool, now: int)

  /** The local file no longer is what was uploaded. */
  predicate Drifted(w: World) {
    w.outcome.Confirmed? && w.localDigest != Some(w.outcome.digest)
  }

  /** The clauses below speak of a confirmed upload whose file or node changed meanwhile. */
  predicate NeedsFollowUp(syncMode: bool, hasNode: bool, e: Queue.Entry, w: World) {
    && w.outcome.Confirmed? && e.action == Queue.Upload
    && ((syncMode && Drifted(w)) || (hasNode && w.generationMoved))
  }

  function FollowUp(syncMode: bool, w: World): Queue.Action {
    if syncMode && w.localDigest.None? then Queue.Delete else Queue.Upload
  }

  /** recordUploaded. */
  function RecordUploaded(r: Row, digest: string, etag: string): Row {
    if digest == "" then r else SetLocalContentForVersion(SetRemoteVersion(r, etag), digest, etag)
  }

  predicate GivesUp(e: Queue.Entry, o: Outcome) {
    o.Error? && (e.attempts + 1 >= MAX_RETRIES || o.permanent)
  }

  /** The queue after processEntry; writable says that EnqueueWriteback accepts entries. */
  function SettledQueue(q: Queue.Table, k: nat, w: World, followUp: bool, freshId: nat, syncMode: bool): Queue.Table
    requires k in q
  {
    var e := q[k];
    match w.outcome
    case Confirmed(_, _) =>
      if followUp then Queue.Enqueue(q - {k}, freshId, e.inode, FollowUp(syncMode, w), w.now) else q - {k}
    case Error(_, delay) =>
      q[k := if GivesUp(e, w.outcome) then e.(state := Queue.GaveUp, attempts := e.attempts + 1)
             else e.(state := Queue.Waiting, attempts := e.attempts + 1, enqueuedAt := w.now + delay)]
  }

  /** The inode row after processEntry. */
  function SettledRow(r: Row, e: Queue.Entry, w: World, changed: bool): Row {
    match w.outcome
    case Error(_, _) => SetSyncStatus(r, if GivesUp(e, w.outcome) then Failed else Pending)
    case Confirmed(digest, etag) =>
      if e.action != Queue.Upload then MarkSynced(r, "")
      else if changed then CacheRow.MarkDirty(RecordUploaded(r, digest, etag))
      else MarkSynced(RecordUploaded(r, digest, etag), etag)
  }

  /** The in-memory node after processEntry; only uploads look their node up. */
  function SettledNode(n: Node, e: Queue.Entry, w: World, changed: bool): Node {
    match w.outcome
    case Error(_, _) => if GivesUp(e, w.outcome) then n.(status := Failed) else n
    case Confirmed(_, etag) =>
      if e.action != Queue.Upload then n
      else if changed then n.(dirty := true, status := Pending, etag := etag)
      else n.(dirty := false, status := Synced, etag := etag)
  }

  function Waiting(q: Queue.Table, inode: nat, action: Queue.Action): set<nat> {
    set k | k in q && q[k].inode == inode && q[k].action == action && q[k].state == Queue.Waiting
  }

  /**
   A confirmed upload in sync mode has two outcomes.  The row is clean, with the confirmed version and
   digest, and the bytes in the folder had that digest and the node's generation had not moved; or the row
   is dirty and, on a writable mount, exactly one follow-up waits, a delete when the file is gone.
   */
  lemma {:induction false} ConfirmedUploadOutcome(r: Row, q: Queue.Table, k: nat, w: World, hasNode: bool,
                                                  freshId: nat, writable: bool)
    requires k in q && q[k].action == Queue.Upload && w.outcome.Confirmed? && w.outcome.digest != ""
    requires q[k].state == Queue.InProgress && freshId !in q
    ensures var changed := NeedsFollowUp(true, hasNode, q[k], w);
            var r' := SettledRow(r, q[k], w, changed);
            var q' := SettledQueue(q, k, w, changed && writable, freshId, true);
            && Baseline(r') == w.outcome.digest && r'.localEtag == w.outcome.etag && k !in q'
            && (!r'.dirty <==> w.localDigest == Some(w.outcome.digest) && !(hasNode && w.generationMoved))
            && (!r'.dirty ==> r'.status == Synced && r'.etag == w.outcome.etag && q' == q - {k})
            && (r'.dirty ==> r'.status == Pending)
            && (r'.dirty && writable ==>
                  var next := if w.localDigest.None? then Queue.Delete else Queue.Upload;
                  Waiting(q', q[k].inode, next) == {freshId} && q'[freshId].attempts == 0)
  {}

  /** Processing an entry uses up some of its retries, unless a follow-up is added. */
  lemma {:induction false} SettlingCosts(q: Queue.Table, k: nat, w: World, freshId: nat, syncMode: bool)
    requires k in q && q[k].state != Queue.GaveUp && q[k].attempts < 3
    ensures Sum(SettledQueue(q, k, w, false, freshId, syncMode), Effort) + 1 <= Sum(q, Effort)
  {
    SumWithout(q, Effort, k);
    if w.outcome.Error? { SumUpdate(q, Effort, k, SettledQueue(q, k, w, false, freshId, syncMode)[k]); }
  }

  function SettledRows(rows: map<nat, Row>, e: Queue.Entry, w: World, changed: bool): map<nat, Row> {
    if e.inode in rows then rows[e.inode := SettledRow(rows[e.inode], e, w, changed)] else rows
  }

  function SettledNodes(nodes: map<nat, Node>, e: Queue.Entry, w: World, changed: bool): map<nat, Node> {
    if e.inode in nodes then nodes[e.inode := SettledNode(nodes[e.inode], e, w, changed)] else nodes
  }

  /** The waiting rows a follow-up replaces. */
  function Replaced(q: Queue.Table, inode: nat, action: Queue.Action): Queue.Table {
    map j | j in q && Queue.Superseded(q[j], inode, action) :: q[j]
  }

  /**
   A follow-up comes with all its retries: the retries left change by three, less those of the settled entry and of
   the waiting rows it replaces.  They fall exactly when those two together are more than three.
   */
  lemma {:induction false} FollowUpEffort(q: Queue.Table, k: nat, w: World, freshId: nat, syncMode: bool)
    requires k in q && w.outcome.Confirmed? && freshId !in q
    ensures var replaced := Sum(Replaced(q - {k}, q[k].inode, FollowUp(syncMode, w)), Effort);
            var after := Sum(SettledQueue(q, k, w, true, freshId, syncMode), Effort);
            && after == Sum(q, Effort) - Effort(q[k]) - replaced + 3
            && (after < Sum(q, Effort) <==> Effort(q[k]) + replaced > 3)
  {
    var rest: Queue.Table := q - {k};
    var inode, next := q[k].inode, FollowUp(syncMode, w);
    SumWithout(q, Effort, k);
    EnqueueEffort(rest, freshId, inode, next, w.now);
  }

  /** The smallest flush that makes no progress: a first attempt whose file changed while it was uploaded. */
  lemma {:induction false} FollowUpWithoutProgress(w: World)
    requires w.outcome.Confirmed?
    ensures var q := map[1 := Queue.Entry(7, Queue.Upload, 0, 0, Queue.InProgress)];
            Sum(SettledQueue(q, 1, w, true, 2, true), Effort) == Sum(q, Effort) == 3
  {
    var q: Queue.Table := map[1 := Queue.Entry(7, Queue.Upload, 0, 0, Queue.InProgress)];
    FollowUpEffort(q, 1, w, 2, true);
    SumWithout(q, Effort, 1);
    assert q - {1} == map[] && Replaced(q - {1}, 7, FollowUp(true, w)) == map[];
  }

  lemma {:induction false} EnqueueEffort(q: Queue.Table, freshId: nat, inode: nat, action: Queue.Action, now: int)
    requires freshId !in q
    ensures Sum(Queue.Enqueue(q, freshId, inode, action, now), Effort)
         == Sum(q, Effort) - Sum(Replaced(q, inode, action), Effort) + 3
  {
    var gone: set<nat> := set j | j in q && Queue.Superseded(q[j], inode, action);
    var kept: Queue.Table := q - gone;
    assert Within(q, gone) == Replaced(q, inode, action);
    SumParts(q, Effort, gone);
    var e := Queue.Entry(inode, action, now, 0, Queue.Waiting);
    assert Queue.Enqueue(q, freshId, inode, action, now) == kept[freshId := e];
    FreshEffort(kept, freshId, e);
  }

  lemma {:induction false} FreshEffort(q: Queue.Table, freshId: nat, e: Queue.Entry)
    requires freshId !in q
    ensures Sum(q[freshId := e], Effort) == Sum(q, Effort) + Effort(e)
  {
    SumUpdate(q, Effort, freshId, e);
    assert q - {freshId} == q;
  }

  /** A failed attempt that is retried returns its row. */
  lemma {:induction false} RetryKeepsUnique(q: Queue.Table, k: nat, w: World, followUp: bool, freshId: nat,
                                            syncMode: bool)
    requires k in q && w.outcome.Error? && !GivesUp(q[k], w.outcome)
    ensures Queue.UniqueWaiting(SettledQueue(q, k, w, followUp, freshId, syncMode)) <==>
              Queue.UniqueWaiting(q) && Queue.NoTwinReturns(q, {k})
  {
    Queue.ReturnsKeepUnique(q, SettledQueue(q, k, w, followUp, freshId, syncMode), {k});
  }

  /** A deadline, and the end of a batch for what it held, return several. */
  lemma {:induction false} RequeueKeepsUnique(q: Queue.Table, ks: seq<nat>, captured: Queue.Table)
    requires forall k :: k in ks ==> k in captured
    ensures Queue.UniqueWaiting(Released(q, ks, captured)) <==>
              Queue.UniqueWaiting(q) && Queue.NoTwinReturns(q, set k | k in ks)
  {
    Queue.ReturnsKeepUnique(q, Released(q, ks, captured), set k | k in ks);
  }

  /** A claimed upload, and another queued since. */
  function Doubled(): Queue.Table {
    map[1 := Queue.Entry(7, Queue.Upload, 0, 0, Queue.InProgress),
        2 := Queue.Entry(7, Queue.Upload, 0, 0, Queue.Waiting)]
  }

  lemma {:induction false} TwoWaiting(q: Queue.Table, j: nat, k: nat)
    requires j in q && k in q && j != k && q[j].state == q[k].state == Queue.Waiting && Queue.Twins(q[j], q[k])
    ensures !Queue.UniqueWaiting(q)
  {
  }

  /** It is reached: an upload is queued and claimed, and another is queued. */
  lemma {:induction false} DoubledIsReached()
    ensures Queue.UniqueWaiting(Doubled())
    ensures Doubled()
         == Queue.Enqueue(Claimed(Queue.Enqueue(map[], 1, 7, Queue.Upload, 0), {1}), 2, 7, Queue.Upload, 0)
  {
  }

  lemma {:induction false} RetryDoubles(retry: World)
    requires retry.outcome.Error? && !retry.outcome.permanent
    ensures !Queue.UniqueWaiting(SettledQueue(Doubled(), 1, retry, false, 3, true))
  {
    TwoWaiting(SettledQueue(Doubled(), 1, retry, false, 3, true), 1, 2);
  }

  lemma {:induction false} RequeueDoubles()
    ensures !Queue.UniqueWaiting(Released(Doubled(), [1], Doubled()))
  {
    TwoWaiting(Released(Doubled(), [1], Doubled()), 1, 2);
  }

  /** There a retry, a requeue and a restart all leave two waiting rows. */
  lemma {:induction false} TwinsArise(retry: World)
    requires retry.outcome.Error? && !retry.outcome.permanent
    ensures Queue.UniqueWaiting(Doubled())
    ensures Doubled()
         == Queue.Enqueue(Claimed(Queue.Enqueue(map[], 1, 7, Queue.Upload, 0), {1}), 2, 7, Queue.Upload, 0)
    ensures !Queue.UniqueWaiting(SettledQueue(Doubled(), 1, retry, false, 3, true))
    ensures !Queue.UniqueWaiting(Released(Doubled(), [1], Doubled()))
    ensures !Queue.UniqueWaiting(Queue.RequeueInProgress(Doubled()))
  {
    DoubledIsReached();
    RetryDoubles(retry);
    RequeueDoubles();
    TwoWaiting(Queue.RequeueInProgress(Doubled()), 1, 2);
  }

  /** The rows of a requeue go back to waiting with the captured number of attempts. */
  function Released(q: Queue.Table, ks: seq<nat>, captured: Queue.Table): Queue.Table {
    map k | k in q ::
      if k in ks && k in captured then q[k].(state := Queue.Waiting, attempts := captured[k].attempts) else q[k]
  }

  /** The entries are distinct rows this processor has claimed. */
  ghost predicate InBatch(q: Queue.Table, entries: seq<nat>) {
    && (forall i, j :: 0 <= i < j < |entries| ==> entries[i] != entries[j])
    && (forall k :: k in entries ==> k in q && q[k].state == Queue.InProgress)
  }

  /** Between two entries of a batch: entries still to come and held ones are untouched. */
  ghost predicate Midway(q0: Queue.Table, q: Queue.Table, entries: seq<nat>, i: nat, held: seq<nat>)
    requires i <= |entries|
  {
    && (forall k :: k in held ==> k in entries[..i])
    && (forall k :: k in q0 && q0[k].state == Queue.InProgress && (k !in entries || k in held || k in entries[i..])
          ==> k in q && q[k] == q0[k])
    && (forall k :: k in q && q[k].state == Queue.InProgress
          ==> k in q0 && q[k] == q0[k] && (k !in entries || k in held || k in entries[i..]))
  }

  /** The rows in progress afterwards are exactly those of others, unchanged. */
  ghost predicate NoneLeftBehind(q0: Queue.Table, q: Queue.Table, entries: seq<nat>) {
    && (forall k :: k in q && q[k].state == Queue.InProgress ==> k in q0 && q[k] == q0[k] && k !in entries)
    && (forall k :: k in q0 && q0[k].state == Queue.InProgress && k !in entries ==> k in q && q[k] == q0[k])
  }

  lemma {:induction false} SettleMidway(q0: Queue.Table, q: Queue.Table, entries: seq<nat>, i: nat, held: seq<nat>,
                     w: World, followUp: bool, freshId: nat, syncMode: bool)
    requires InBatch(q0, entries) && i < |entries| && Midway(q0, q, entries, i, held)
    requires entries[i] in q && entries[i] !in held && forall k :: k in q ==> k < freshId
    ensures Midway(q0, SettledQueue(q, entries[i], w, followUp, freshId, syncMode), entries, i + 1, held)
  {
    var k := entries[i];
    SettledElsewhere(q, k, w, followUp, freshId, syncMode);
    assert entries[..i + 1] == entries[..i] + [k];
    assert entries[i..] == [k] + entries[i + 1..];
    assert k !in entries[i + 1..];
  }

  /** Rows in progress are those of before, without the settled one. */
  lemma {:induction false} SettledElsewhere(q: Queue.Table, k: nat, w: World, followUp: bool, freshId: nat,
                                            syncMode: bool)
    requires k in q && forall j :: j in q ==> j < freshId
    ensures var q' := SettledQueue(q, k, w, followUp, freshId, syncMode);
            && (forall j :: j in q && j != k && q[j].state == Queue.InProgress ==> j in q' && q'[j] == q[j])
            && (forall j :: j in q' && q'[j].state == Queue.InProgress ==> j in q && j != k && q'[j] == q[j])
  {
  }

  lemma {:induction false} HoldMidway(q0: Queue.Table, q: Queue.Table, entries: seq<nat>, i: nat, held: seq<nat>)
    requires i < |entries| && Midway(q0, q, entries, i, held)
    ensures Midway(q0, q, entries, i + 1, held + [entries[i]])
  {
    assert entries[..i + 1] == entries[..i] + [entries[i]];
    assert entries[i..] == [entries[i]] + entries[i + 1..];
  }

  lemma {:induction false} ReleaseMidway(q0: Queue.Table, q: Queue.Table, entries: seq<nat>, i: nat, held: seq<nat>)
    requires InBatch(q0, entries) && i <= |entries| && Midway(q0, q, entries, i, held)
    ensures var ks := entries[i..] + held;
            && (forall k :: k in ks ==> k in q0)
            && NoneLeftBehind(q0, Released(q, ks, q0), entries)
            && (forall k :: k in ks ==> k in q && Released(q, ks, q0)[k] == q0[k].(state := Queue.Waiting))
            && (forall k, rows :: ConflictHeld(q, rows, k) ==> ConflictHeld(Released(q, ks, q0), rows, k))
            && (forall k :: k in held ==> k in entries)
            && Sum(Released(q, ks, q0), Effort) == Sum(q, Effort)
  {
    var ks := entries[i..] + held;
    assert forall k :: k in ks ==> k in entries;
    ReleaseNone(q0, q, entries, i, held);
    ReleaseSame(q0, q, ks);
  }

  lemma {:induction false} ReleaseNone(q0: Queue.Table, q: Queue.Table, entries: seq<nat>, i: nat, held: seq<nat>)
    requires InBatch(q0, entries) && i <= |entries| && Midway(q0, q, entries, i, held)
    requires forall k :: k in entries[i..] + held ==> k in q0
    ensures NoneLeftBehind(q0, Released(q, entries[i..] + held, q0), entries)
  {
  }

  lemma {:induction false} ReleaseSame(q0: Queue.Table, q: Queue.Table, ks: seq<nat>)
    requires forall k :: k in ks ==> k in q0 && k in q && q[k] == q0[k] && q[k].state == Queue.InProgress
    ensures forall k, rows :: ConflictHeld(q, rows, k) ==> ConflictHeld(Released(q, ks, q0), rows, k)
    ensures Sum(Released(q, ks, q0), Effort) == Sum(q, Effort)
  {
    SumSame(Released(q, ks, q0), q, Effort);
    forall k, rows | ConflictHeld(q, rows, k) ensures ConflictHeld(Released(q, ks, q0), rows, k) {
      ReleaseConflict(q0, q, ks, rows, k);
    }
  }

  lemma {:induction false} ReleaseConflict(q0: Queue.Table, q: Queue.Table, ks: seq<nat>, rows: map<nat, Row>, k: nat)
    requires forall j :: j in ks ==> j in q0 && j in q && q[j].state == Queue.InProgress
    requires ConflictHeld(q, rows, k)
    ensures ConflictHeld(Released(q, ks, q0), rows, k)
  {
  }

  predicate InConflict(rows: map<nat, Row>, inode: nat) { inode in rows && rows[inode].status == Conflict }

  /** An upload of a file in conflict, for which no other kind of entry is alive. */
  ghost predicate ConflictHeld(q: Queue.Table, rows: map<nat, Row>, k: nat) {
    && k in q && q[k].action == Queue.Upload && InConflict(rows, q[k].inode)
    && (forall j :: j in q && j != k && q[j].inode == q[k].inode ==>
          q[j].action == Queue.Upload || q[j].state == Queue.GaveUp)
  }

  /** Processing entries never puts a file in conflict. */
  ghost predicate NoNewConflicts(rows0: map<nat, Row>, rows: map<nat, Row>) {
    forall inode :: InConflict(rows, inode) ==> InConflict(rows0, inode)
  }

  /** The state of a batch after i entries: conflicts are all held back, untouched. */
  ghost predicate Progress(q0: Queue.Table, rows0: map<nat, Row>, q: Queue.Table, rows: map<nat, Row>,
                           entries: seq<nat>, i: nat, held: seq<nat>)
    requires i <= |entries|
  {
    && Midway(q0, q, entries, i, held)
    && forall k :: ConflictHeld(q0, rows0, k) ==>
         ConflictHeld(q, rows, k) && q[k] == q0[k] && (k in entries[..i] ==> k in held)
  }

  /** What a batch holds back: uploads of files that were in conflict from the start. */
  ghost predicate HeldUploads(q0: Queue.Table, rows0: map<nat, Row>, held: seq<nat>) {
    forall k :: k in held ==> k in q0 && q0[k].action == Queue.Upload && InConflict(rows0, q0[k].inode)
  }

  /** Everything held back is handed back as it was claimed. */
  ghost predicate HeldReturned(q0: Queue.Table, q: Queue.Table, entries: seq<nat>, held: seq<nat>) {
    forall k :: k in held ==> k in entries && k in q0 && k in q && q[k] == q0[k].(state := Queue.Waiting)
  }

  /** Conflicts are handed back as they were claimed, or were not claimed and are as they were. */
  ghost predicate ConflictsReturned(q0: Queue.Table, rows0: map<nat, Row>, q: Queue.Table, rows: map<nat, Row>,
                                    entries: seq<nat>) {
    forall k :: ConflictHeld(q0, rows0, k) ==>
      && ConflictHeld(q, rows, k)
      && q[k] == (if k in entries then q0[k].(state := Queue.Waiting) else q0[k])
  }

  /** Claim and batch together leave conflicts, held rows and the claims of others as they were before. */
  lemma {:induction false} ClaimAndBatch(q0: Queue.Table, rows0: map<nat, Row>, claimed: seq<nat>, q: Queue.Table,
                                         rows: map<nat, Row>, held: seq<nat>)
    requires forall k :: k in claimed ==> k in q0 && q0[k].state == Queue.Waiting
    requires var q1 := Claimed(q0, set k | k in claimed);
             && NoneLeftBehind(q1, q, claimed) && ConflictsReturned(q1, rows0, q, rows, claimed)
             && HeldReturned(q1, q, claimed, held) && HeldUploads(q1, rows0, held)
    ensures SameInProgress(q0, q) && ConflictsUntouched(q0, rows0, q, rows) && HeldUploads(q0, rows0, held)
    ensures forall k :: k in held ==> k in q0 && k in q && q[k] == q0[k]
  {
    ClaimConflict(q0, rows0, claimed);
    ghost var q1 := Claimed(q0, set k | k in claimed);
    assert forall k :: k in q1 <==> k in q0;
    assert forall k :: k in claimed ==> q0[k] == q1[k].(state := Queue.Waiting);
  }

  lemma {:induction false} HoldProgress(q0: Queue.Table, rows0: map<nat, Row>, q: Queue.Table, rows: map<nat, Row>,
                     entries: seq<nat>, i: nat, held: seq<nat>)
    requires i < |entries| && Progress(q0, rows0, q, rows, entries, i, held)
    ensures Progress(q0, rows0, q, rows, entries, i + 1, held + [entries[i]])
  {
    HoldMidway(q0, q, entries, i, held);
    assert entries[..i + 1] == entries[..i] + [entries[i]];
  }

  /** Processing an entry of another file leaves a conflict alone. */
  lemma {:induction false} SettleConflict(q: Queue.Table, rows: map<nat, Row>, j: nat, k: nat, w: World, changed: bool,
                       followUp: bool, freshId: nat, syncMode: bool)
    requires ConflictHeld(q, rows, k) && j in q && q[j].inode != q[k].inode && freshId !in q
    ensures var q' := SettledQueue(q, j, w, followUp, freshId, syncMode);
            ConflictHeld(q', SettledRows(rows, q[j], w, changed), k) && q'[k] == q[k]
  {}

  lemma {:induction false} SettleProgress(q0: Queue.Table, rows0: map<nat, Row>, q: Queue.Table, rows: map<nat, Row>,
                       entries: seq<nat>, i: nat, held: seq<nat>,
                       w: World, changed: bool, followUp: bool, freshId: nat, syncMode: bool)
    requires InBatch(q0, entries) && i < |entries| && Progress(q0, rows0, q, rows, entries, i, held)
    requires forall k :: k in q ==> k < freshId
    requires entries[i] in q && !(q[entries[i]].action == Queue.Upload && InConflict(rows, q[entries[i]].inode))
    ensures Progress(q0, rows0, SettledQueue(q, entries[i], w, followUp, freshId, syncMode),
                     SettledRows(rows, q[entries[i]], w, changed), entries, i + 1, held)
  {
    assert entries[i] in entries[i..];
    SettleMidway(q0, q, entries, i, held, w, followUp, freshId, syncMode);
    assert entries[..i + 1] == entries[..i] + [entries[i]];
    forall k | ConflictHeld(q0, rows0, k)
      ensures var q' := SettledQueue(q, entries[i], w, followUp, freshId, syncMode);
              ConflictHeld(q', SettledRows(rows, q[entries[i]], w, changed), k) && q'[k] == q[k]
    {
      assert ConflictHeld(q, rows, k) && q[entries[i]] == q0[entries[i]];
      SettleConflict(q, rows, entries[i], k, w, changed, followUp, freshId, syncMode);
    }
  }

  /** No upload finds its file or node changed. */
  ghost predicate DriftFree(env: nat -> World) {
    forall i :: !Drifted(env(i)) && !env(i).generationMoved
  }

  /** Nobody's claim is lost or left behind. */
  ghost predicate SameInProgress(q0: Queue.Table, q: Queue.Table) {
    && (forall k :: k in q && q[k].state == Queue.InProgress ==> k in q0 && q[k] == q0[k])
    && (forall k :: k in q0 && q0[k].state == Queue.InProgress ==> k in q && q[k] == q0[k])
  }

  /** Waiting uploads of files in conflict keep their place, their attempts and their conflict. */
  ghost predicate ConflictsUntouched(q0: Queue.Table, rows0: map<nat, Row>, q: Queue.Table, rows: map<nat, Row>) {
    forall k :: ConflictHeld(q0, rows0, k) ==> ConflictHeld(q, rows, k) && q[k] == q0[k]
  }

  lemma {:induction false} ClaimConflict(q: Queue.Table, rows: map<nat, Row>, claimed: seq<nat>)
    requires forall k :: k in claimed ==> k in q && q[k].state == Queue.Waiting
    ensures forall k :: ConflictHeld(q, rows, k) ==> ConflictHeld(Claimed(q, set j | j in claimed), rows, k)
  {}

  // ---------------------------------------------------------------- what a processor does, as a function

  /** A processed entry: its queue row as claimed, and what the world answered. */
  datatype Done = Done(key: nat, entry: Queue.Entry, world: World)

  /** Tables and nodes, the entries processed so far, and those the current batch holds back. */
  datatype Ledger = Ledger(rows: map<nat, Row>, nodes: map<nat, Node>, queue: Queue.Table, next: nat,
                           log: seq<Done>, held: seq<nat>)

  /** The n-th entry processed meets the n-th world. */
  datatype Setting = Setting(syncMode: bool, writable: bool, env: nat -> World)

  function Processed(c: Setting, l: Ledger, k: nat): Ledger
    requires k in l.queue
  {
    var e, w := l.queue[k], c.env(|l.log|);
    var changed := NeedsFollowUp(c.syncMode, e.inode in l.nodes, e, w);
    var followUp := changed && c.writable;
    Ledger(SettledRows(l.rows, e, w, changed), SettledNodes(l.nodes, e, w, changed),
           SettledQueue(l.queue, k, w, followUp, l.next, c.syncMode), if followUp then l.next + 1 else l.next,
           l.log + [Done(k, e, w)], l.held)
  }

  predicate HeldBack(l: Ledger, k: nat)
    requires k in l.queue
  {
    l.queue[k].action == Queue.Upload && InConflict(l.rows, l.queue[k].inode)
  }

  /** One entry's turn: it is held back or processed. */
  function Turned(c: Setting, l: Ledger, k: nat): Ledger {
    if k !in l.queue then l
    else if HeldBack(l, k) then l.(held := l.held + [k])
    else Processed(c, l, k)
  }

  /** The first n turns of a batch. */
  function Batched(c: Setting, l: Ledger, entries: seq<nat>, n: nat): Ledger
    requires n <= |entries|
  {
    if n == 0 then l.(held := []) else Turned(c, Batched(c, l, entries, n - 1), entries[n - 1])
  }

  lemma {:induction false} BatchedNext(c: Setting, l: Ledger, entries: seq<nat>, n: nat)
    requires n < |entries|
    ensures Batched(c, l, entries, n + 1) == Turned(c, Batched(c, l, entries, n), entries[n])
  {
  }

  /** A batch that the deadline stops after n turns: the rest and what was held wait again. */
  function Ended(c: Setting, l: Ledger, entries: seq<nat>, n: nat): Ledger
    requires n <= |entries|
  {
    var b := Batched(c, l, entries, n);
    b.(queue := Released(b.queue, entries[n..] + b.held, l.queue))
  }

  /** What one batch claimed, and how many of those had their turn. */
  datatype Round = Round(claimed: seq<nat>, turns: nat)

  function Rounded(c: Setting, l: Ledger, r: Round): Ledger
    requires r.turns <= |r.claimed|
  {
    Ended(c, l.(queue := Claimed(l.queue, set k | k in r.claimed)), r.claimed, r.turns)
  }

  ghost predicate Proper(rounds: seq<Round>) {
    forall i :: 0 <= i < |rounds| ==> rounds[i].turns <= |rounds[i].claimed|
  }

  function Flushed(c: Setting, l: Ledger, rounds: seq<Round>): Ledger
    requires Proper(rounds)
  {
    if rounds == [] then l else Rounded(c, Flushed(c, l, rounds[..|rounds| - 1]), rounds[|rounds| - 1])
  }

  function Confirmations(log: seq<Done>): nat {
    if log == [] then 0
    else Confirmations(log[..|log| - 1]) + if log[|log| - 1].world.outcome.Confirmed? then 1 else 0
  }

  /** Live rows have attempts left and ids are never reused. */
  ghost predicate Sound(l: Ledger) {
    && (forall k :: k in l.queue && l.queue[k].state != Queue.GaveUp ==> l.queue[k].attempts < 3)
    && (forall k :: k in l.queue ==> k < l.next)
  }

  /** What the turns of a batch keep. */
  ghost predicate BatchKept(c: Setting, l: Ledger, entries: seq<nat>, n: nat, b: Ledger)
    requires n <= |entries|
  {
    && Sound(b) && Progress(l.queue, l.rows, b.queue, b.rows, entries, n, b.held)
    && NoNewConflicts(l.rows, b.rows) && HeldUploads(l.queue, l.rows, b.held)
    && |b.held| + |b.log| == n + |l.log|
    && (DriftFree(c.env) ==> Sum(b.queue, Effort) + |b.log| <= Sum(l.queue, Effort) + |l.log|)
  }

  lemma {:induction false} ProcessedSound(c: Setting, l: Ledger, k: nat)
    requires Sound(l) && k in l.queue && l.queue[k].state == Queue.InProgress
    ensures Sound(Processed(c, l, k)) && NoNewConflicts(l.rows, Processed(c, l, k).rows)
  {
  }

  lemma {:induction false} TurnKeeps(c: Setting, l: Ledger, entries: seq<nat>, n: nat, b: Ledger)
    requires InBatch(l.queue, entries) && n < |entries| && BatchKept(c, l, entries, n, b)
    ensures BatchKept(c, l, entries, n + 1, Turned(c, b, entries[n]))
  {
    var k := entries[n];
    assert k in entries[n..];
    if HeldBack(b, k) {
      HoldProgress(l.queue, l.rows, b.queue, b.rows, entries, n, b.held);
    } else {
      var e, w := b.queue[k], c.env(|b.log|);
      var changed := NeedsFollowUp(c.syncMode, e.inode in b.nodes, e, w);
      ProcessedSound(c, b, k);
      SettleProgress(l.queue, l.rows, b.queue, b.rows, entries, n, b.held, w, changed, changed && c.writable, b.next,
                     c.syncMode);
      SettlingCosts(b.queue, k, w, b.next, c.syncMode);
    }
  }

  lemma {:induction false} BatchKeeps(c: Setting, l: Ledger, entries: seq<nat>, n: nat)
    requires InBatch(l.queue, entries) && n <= |entries| && Sound(l)
    ensures BatchKept(c, l, entries, n, Batched(c, l, entries, n))
  {
    if n > 0 {
      BatchKeeps(c, l, entries, n - 1);
      TurnKeeps(c, l, entries, n - 1, Batched(c, l, entries, n - 1));
    }
  }

  /** The entry whose turn comes is still as it was claimed. */
  lemma {:induction false} NextIsClaimed(c: Setting, l: Ledger, entries: seq<nat>, n: nat)
    requires InBatch(l.queue, entries) && n < |entries| && Sound(l)
    ensures var b := Batched(c, l, entries, n); entries[n] in b.queue && b.queue[entries[n]] == l.queue[entries[n]]
  {
    BatchKeeps(c, l, entries, n);
    assert entries[n] in entries[n..];
  }

  lemma {:induction false} TurnCounts(c: Setting, l: Ledger, k: nat)
    requires k in l.queue
    ensures var next := Turned(c, l, k);
            && (HeldBack(l, k) ==> next.log == l.log && next.held == l.held + [k])
            && (!HeldBack(l, k) ==>
                  && |next.log| == |l.log| + 1 && next.held == l.held
                  && Confirmations(next.log)
                     == Confirmations(l.log) + if c.env(|l.log|).outcome.Confirmed? then 1 else 0)
  {
    if !HeldBack(l, k) { assert Turned(c, l, k).log[..|l.log|] == l.log; }
  }

  ghost predicate TurnsTaken(l: Ledger, b: Ledger, held: seq<nat>, flushed: nat, spent: nat) {
    held == b.held && |b.log| == |l.log| + spent && Confirmations(b.log) == Confirmations(l.log) + flushed
  }

  /** What a batch leaves, wherever the deadline falls. */
  ghost predicate EndKept(l: Ledger, entries: seq<nat>, b: Ledger) {
    && NoneLeftBehind(l.queue, b.queue, entries)
    && ConflictsReturned(l.queue, l.rows, b.queue, b.rows, entries)
    && HeldReturned(l.queue, b.queue, entries, b.held) && HeldUploads(l.queue, l.rows, b.held)
  }

  lemma {:induction false} EndKeeps(c: Setting, l: Ledger, entries: seq<nat>, n: nat)
    requires InBatch(l.queue, entries) && n <= |entries| && Sound(l)
    ensures var b := Ended(c, l, entries, n);
            && Sound(b) && EndKept(l, entries, b) && |b.held| + |b.log| == n + |l.log|
            && (DriftFree(c.env) ==> Sum(b.queue, Effort) + |b.log| <= Sum(l.queue, Effort) + |l.log|)
            && (forall k :: k in entries[n..] + b.held ==> k in l.queue && l.queue[k].attempts < 3)
  {
    var b := Batched(c, l, entries, n);
    BatchKeeps(c, l, entries, n);
    ReleaseMidway(l.queue, b.queue, entries, n, b.held);
    assert forall k :: k in entries[n..] + b.held ==> k in entries;
    EndConflicts(l, entries, n, b);
  }

  lemma {:induction false} EndConflicts(l: Ledger, entries: seq<nat>, n: nat, b: Ledger)
    requires InBatch(l.queue, entries) && n <= |entries|
    requires Progress(l.queue, l.rows, b.queue, b.rows, entries, n, b.held)
    ensures ConflictsReturned(l.queue, l.rows, Released(b.queue, entries[n..] + b.held, l.queue), b.rows, entries)
  {
    var ks := entries[n..] + b.held;
    ReleaseMidway(l.queue, b.queue, entries, n, b.held);
    assert entries == entries[..n] + entries[n..];
    forall k | ConflictHeld(l.queue, l.rows, k)
      ensures ConflictHeld(Released(b.queue, ks, l.queue), b.rows, k)
      ensures Released(b.queue, ks, l.queue)[k]
              == (if k in entries then l.queue[k].(state := Queue.Waiting) else l.queue[k])
    {
      assert ConflictHeld(b.queue, b.rows, k);
      assert k in entries ==> k in ks;
      assert k in ks ==> k in entries;
    }
  }

  /** The round of a batch whose deadline survives that many checks. */
  function RoundOf(claimed: seq<nat>, checks: nat): (r: Round)
    ensures r.turns <= |r.claimed|
  {
    Round(claimed, if checks < |claimed| then checks else |claimed|)
  }

  /** How a flush ends: nothing left to claim, a batch of nothing but held entries, or the deadline. */
  datatype FlushEnd = Refused | Drained | Blocked | TimedOut

  /** Every entry has its turn. */
  ghost predicate Full(rounds: seq<Round>) { forall i :: 0 <= i < |rounds| ==> rounds[i].turns == |rounds[i].claimed| }

  function TurnsOf(rounds: seq<Round>): nat {
    if rounds == [] then 0 else TurnsOf(rounds[..|rounds| - 1]) + rounds[|rounds| - 1].turns
  }

  /** Every round claims what the database gives it, and something. */
  ghost predicate Claims(c: Setting, l: Ledger, rounds: seq<Round>, clock: nat -> int)
    requires Proper(rounds)
  {
    rounds != [] ==>
      var n := |rounds| - 1;
      && Claims(c, l, rounds[..n], clock) && rounds[n].claimed != []
      && FirstClaimable(Flushed(c, l, rounds[..n]).queue, rounds[n].claimed, BATCH, clock(n))
  }

  /** The result of some rounds: they claim as they should, and the counts are those of the log. */
  ghost predicate FlushedBy(c: Setting, start: Ledger, l: Ledger, history: seq<Round>, clock: nat -> int,
                            flushed: nat, spent: nat) {
    && Proper(history) && Claims(c, start, history, clock) && spent == |l.log| && flushed == Confirmations(l.log)
  }

  /** Why a flush ends: nothing is claimable, the rows claimable first are all held, or the checks are used up. */
  ghost predicate EndsBy(end: FlushEnd, history: seq<Round>, checks: nat, q: Queue.Table, rows: map<nat, Row>,
                         rounds: nat, clock: nat -> int) {
    match end
    case Refused => history == []
    case Drained => Full(history) && TurnsOf(history) <= checks && |history| == rounds
                    && forall k :: k in q ==> !Claimable(q[k], clock(rounds))
    case Blocked => Full(history) && TurnsOf(history) <= checks && |history| == rounds + 1
                    && BlockedBy(q, rows, history[rounds].claimed, clock(rounds))
    case TimedOut => |history| == rounds + 1 && Full(history[..rounds]) && TurnsOf(history) == checks
  }

  lemma {:induction false} OneRound(c: Setting, start: Ledger, l: Ledger, history: seq<Round>, r: Round,
                                    clock: nat -> int)
    requires Proper(history) && Claims(c, start, history, clock) && l == Flushed(c, start, history)
    requires r.turns <= |r.claimed| && r.claimed != []
    requires FirstClaimable(l.queue, r.claimed, BATCH, clock(|history|))
    ensures var next := history + [r];
            && Proper(next) && Flushed(c, start, next) == Rounded(c, l, r) && Claims(c, start, next, clock)
            && TurnsOf(next) == TurnsOf(history) + r.turns && next[..|history|] == history
  {
    assert (history + [r])[..|history|] == history;
  }

  /** Between two rounds. */
  ghost predicate Underway(c: Setting, start: Ledger, l: Ledger, history: seq<Round>, clock: nat -> int,
                           flushed: nat, spent: nat, checks: nat, left: nat) {
    && FlushedBy(c, start, l, history, clock, flushed, spent) && l == Flushed(c, start, history) && Sound(l)
    && Full(history) && left + TurnsOf(history) == checks && checks <= left + BATCH * spent
  }

  /** After the last round. */
  ghost predicate Over(c: Setting, start: Ledger, l: Ledger, history: seq<Round>, clock: nat -> int,
                       flushed: nat, spent: nat, checks: nat, end: FlushEnd, rounds: nat) {
    && FlushedBy(c, start, l, history, clock, flushed, spent) && l == Flushed(c, start, history)
    && EndsBy(end, history, checks, l.queue, l.rows, rounds, clock)
    && (end == TimedOut ==> checks < BATCH * (spent + 1))
  }

  /** One more round, of which f entries were confirmed and n processed. */
  lemma {:induction false} RoundMore(c: Setting, start: Ledger, l: Ledger, history: seq<Round>, clock: nat -> int,
                                     flushed: nat, spent: nat, r: Round, next: Ledger, held: seq<nat>, f: nat, n: nat)
    requires FlushedBy(c, start, l, history, clock, flushed, spent) && l == Flushed(c, start, history)
    requires r.claimed != [] && FirstClaimable(l.queue, r.claimed, BATCH, clock(|history|))
    requires r.turns <= |r.claimed| && next == Rounded(c, l, r) && TurnsTaken(l, next, held, f, n)
    ensures var longer := history + [r];
            && FlushedBy(c, start, next, longer, clock, flushed + f, spent + n) && next == Flushed(c, start, longer)
            && TurnsOf(longer) == TurnsOf(history) + r.turns && longer[..|history|] == history
  {
    OneRound(c, start, l, history, r, clock);
  }

  lemma {:induction false} RoundBlocks(c: Setting, start: Ledger, l: Ledger, history: seq<Round>, clock: nat -> int,
                                       flushed: nat, spent: nat, checks: nat, left: nat, claimed: seq<nat>,
                                       next: Ledger, f: nat, n: nat)
    requires Underway(c, start, l, history, clock, flushed, spent, checks, left) && left >= |claimed|
    requires claimed != [] && FirstClaimable(l.queue, claimed, BATCH, clock(|history|))
    requires next == Rounded(c, l, Round(claimed, |claimed|)) && TurnsTaken(l, next, next.held, f, n)
    requires |next.held| == |claimed|
    ensures Over(c, start, next, history + [Round(claimed, |claimed|)], clock, flushed + f, spent + n, checks, Blocked,
                 |history|)
  {
    AllHeld(c, l, claimed, clock(|history|));
    BlocksMore(c, start, l, history, clock, flushed, spent, checks, left, Round(claimed, |claimed|), next, f, n);
  }

  lemma {:induction false} BlocksMore(c: Setting, start: Ledger, l: Ledger, history: seq<Round>, clock: nat -> int,
                                      flushed: nat, spent: nat, checks: nat, left: nat, r: Round, next: Ledger,
                                      f: nat, n: nat)
    requires Underway(c, start, l, history, clock, flushed, spent, checks, left) && left >= |r.claimed| == r.turns
    requires BlockedBy(next.queue, next.rows, r.claimed, clock(|history|))
    requires FirstClaimable(l.queue, r.claimed, BATCH, clock(|history|))
    requires next == Rounded(c, l, r) && TurnsTaken(l, next, next.held, f, n)
    ensures Over(c, start, next, history + [r], clock, flushed + f, spent + n, checks, Blocked, |history|)
  {
    RoundMore(c, start, l, history, clock, flushed, spent, r, next, next.held, f, n);
  }

  lemma {:induction false} RoundExpires(c: Setting, start: Ledger, l: Ledger, history: seq<Round>, clock: nat -> int,
                                        flushed: nat, spent: nat, checks: nat, left: nat, claimed: seq<nat>,
                                        next: Ledger, f: nat, n: nat)
    requires Underway(c, start, l, history, clock, flushed, spent, checks, left) && left < |claimed|
    requires FirstClaimable(l.queue, claimed, BATCH, clock(|history|))
    requires next == Rounded(c, l, Round(claimed, left)) && TurnsTaken(l, next, next.held, f, n)
    ensures Over(c, start, next, history + [Round(claimed, left)], clock, flushed + f, spent + n, checks, TimedOut,
                 |history|)
  {
    RoundMore(c, start, l, history, clock, flushed, spent, Round(claimed, left), next, next.held, f, n);
  }

  lemma {:induction false} RoundGoesOn(c: Setting, start: Ledger, l: Ledger, history: seq<Round>, clock: nat -> int,
                                       flushed: nat, spent: nat, checks: nat, left: nat, claimed: seq<nat>,
                                       next: Ledger, f: nat, n: nat)
    requires Underway(c, start, l, history, clock, flushed, spent, checks, left) && left >= |claimed|
    requires claimed != [] && FirstClaimable(l.queue, claimed, BATCH, clock(|history|))
    requires next == Rounded(c, l, Round(claimed, |claimed|)) && TurnsTaken(l, next, next.held, f, n)
    requires RoundKept(c, l, Round(claimed, |claimed|), next) && |next.held| != |claimed|
    ensures Underway(c, start, next, history + [Round(claimed, |claimed|)], clock, flushed + f, spent + n, checks,
                     left - |claimed|)
  {
    RoundMore(c, start, l, history, clock, flushed, spent, Round(claimed, |claimed|), next, next.held, f, n);
  }

  /** A flush that goes on, or has ended. */
  ghost predicate Stage(c: Setting, start: Ledger, l: Ledger, history: seq<Round>, clock: nat -> int, flushed: nat,
                        spent: nat, checks: nat, left: nat, end: FlushEnd, rounds: nat) {
    if end == Refused then
      Underway(c, start, l, history, clock, flushed, spent, checks, left) && rounds == |history|
    else
      Over(c, start, l, history, clock, flushed, spent, checks, end, rounds)
  }

  /** What the loop makes of a round. */
  function EndOf(claimed: seq<nat>, held: seq<nat>, left: nat): FlushEnd {
    if claimed == [] then Drained
    else if left < |claimed| then TimedOut
    else if |held| == |claimed| then Blocked
    else Refused
  }

  lemma {:induction false} NextStage(c: Setting, start: Ledger, l: Ledger, history: seq<Round>, clock: nat -> int,
                                     flushed: nat, spent: nat, checks: nat, left: nat, claimed: seq<nat>, r: Round,
                                     next: Ledger, f: nat, n: nat)
    requires Underway(c, start, l, history, clock, flushed, spent, checks, left)
    requires FirstClaimable(l.queue, claimed, BATCH, clock(|history|)) && r == RoundOf(claimed, left)
    requires next == Rounded(c, l, r) && TurnsTaken(l, next, next.held, f, n) && RoundKept(c, l, r, next)
    ensures var end := EndOf(claimed, next.held, left);
            && (end == Drained ==>
                  && Stage(c, start, l, history, clock, flushed, spent, checks, left, end, |history|)
                  && next == l.(held := []) && f == n == 0)
            && (end != Drained ==>
                  Stage(c, start, next, history + [r], clock, flushed + f, spent + n, checks,
                        if end == Refused then left - |claimed| else left, end,
                        if end == Refused then |history| + 1 else |history|))
  {
    match EndOf(claimed, next.held, left)
    case Drained => RoundNone(c, start, l, history, clock, flushed, spent, checks, left);
    case TimedOut => RoundExpires(c, start, l, history, clock, flushed, spent, checks, left, claimed, next, f, n);
    case Blocked => RoundBlocks(c, start, l, history, clock, flushed, spent, checks, left, claimed, next, f, n);
    case Refused => RoundGoesOn(c, start, l, history, clock, flushed, spent, checks, left, claimed, next, f, n);
  }

  lemma {:induction false} RoundNone(c: Setting, start: Ledger, l: Ledger, history: seq<Round>, clock: nat -> int,
                                     flushed: nat, spent: nat, checks: nat, left: nat)
    requires Underway(c, start, l, history, clock, flushed, spent, checks, left)
    requires FirstClaimable(l.queue, [], BATCH, clock(|history|))
    ensures Over(c, start, l, history, clock, flushed, spent, checks, Drained, |history|)
    ensures Rounded(c, l, RoundOf([], left)) == l.(held := [])
  {
    NothingClaimed(c, l, RoundOf([], left));
  }

  lemma {:induction false} NothingClaimed(c: Setting, l: Ledger, r: Round)
    requires r == Round([], 0)
    ensures Rounded(c, l, r) == l.(held := [])
  {
    assert Claimed(l.queue, set k | k in r.claimed) == l.queue;
    assert Released(l.queue, [], l.queue) == l.queue;
  }

  /** What a round leaves: claims of others, conflicts and held rows are as before. */
  ghost predicate RoundKept(c: Setting, l: Ledger, r: Round, next: Ledger) {
    && Sound(next) && SameInProgress(l.queue, next.queue)
    && ConflictsUntouched(l.queue, l.rows, next.queue, next.rows)
    && HeldUploads(l.queue, l.rows, next.held)
    && (forall k :: k in next.held ==> k in l.queue && k in next.queue && next.queue[k] == l.queue[k])
    && |next.held| + |next.log| == r.turns + |l.log|
    && (DriftFree(c.env) ==> Sum(next.queue, Effort) + |next.log| <= Sum(l.queue, Effort) + |l.log|)
  }

  lemma {:induction false} RoundKeeps(c: Setting, l: Ledger, r: Round, claimBefore: int)
    requires Sound(l) && FirstClaimable(l.queue, r.claimed, BATCH, claimBefore) && r.turns <= |r.claimed|
    ensures RoundKept(c, l, r, Rounded(c, l, r))
  {
    var started := l.(queue := Claimed(l.queue, set k | k in r.claimed));
    var next := Ended(c, started, r.claimed, r.turns);
    EndKeeps(c, started, r.claimed, r.turns);
    ClaimAndBatch(l.queue, l.rows, r.claimed, next.queue, next.rows, next.held);
    ClaimKeepsEffort(l.queue, set k | k in r.claimed);
  }

  /** Over a whole flush. */
  lemma {:induction false} FlushKeeps(c: Setting, l: Ledger, history: seq<Round>, clock: nat -> int)
    requires Sound(l) && Proper(history) && Claims(c, l, history, clock)
    ensures var next := Flushed(c, l, history);
            && Sound(next) && SameInProgress(l.queue, next.queue)
            && ConflictsUntouched(l.queue, l.rows, next.queue, next.rows)
            && (DriftFree(c.env) ==> Sum(next.queue, Effort) + |next.log| <= Sum(l.queue, Effort) + |l.log|)
  {
    if history != [] {
      var n := |history| - 1;
      FlushKeeps(c, l, history[..n], clock);
      RoundKeeps(c, Flushed(c, l, history[..n]), history[n], clock(n));
    }
  }

  /** The rows that would be claimed next are all uploads of files in conflict. */
  ghost predicate BlockedBy(q: Queue.Table, rows: map<nat, Row>, ks: seq<nat>, claimBefore: int) {
    && ks != [] && FirstClaimable(q, ks, BATCH, claimBefore)
    && forall k :: k in ks ==> q[k].action == Queue.Upload && InConflict(rows, q[k].inode)
  }

  /** Turns that hold everything back change nothing. */
  lemma {:induction false} HeldTurns(c: Setting, l: Ledger, entries: seq<nat>, n: nat)
    requires n <= |entries| && (forall k :: k in entries ==> k in l.queue) && |Batched(c, l, entries, n).held| == n
    ensures Batched(c, l, entries, n) == l.(held := entries[..n])
    ensures forall i :: 0 <= i < n ==> HeldBack(l, entries[i])
  {
    if n > 0 {
      var m := n - 1;
      BatchedNext(c, l, entries, m);
      HeldLength(c, l, entries, m);
      TurnHolds(c, Batched(c, l, entries, m), entries[m]);
      HeldTurns(c, l, entries, m);
      assert entries[..n] == entries[..m] + [entries[m]];
    }
  }

  lemma {:induction false} TurnHolds(c: Setting, l: Ledger, k: nat)
    ensures k in l.queue && HeldBack(l, k) ==> Turned(c, l, k) == l.(held := l.held + [k])
    ensures !(k in l.queue && HeldBack(l, k)) ==> Turned(c, l, k).held == l.held
  {
  }

  lemma {:induction false} HeldLength(c: Setting, l: Ledger, entries: seq<nat>, n: nat)
    requires n <= |entries|
    ensures |Batched(c, l, entries, n).held| <= n
  {
    if n > 0 {
      HeldLength(c, l, entries, n - 1);
      TurnHolds(c, Batched(c, l, entries, n - 1), entries[n - 1]);
    }
  }

  lemma {:induction false} RoundHeld(c: Setting, l: Ledger, started: Ledger, claimed: seq<nat>)
    requires forall k :: k in claimed ==> k in l.queue && l.queue[k].state == Queue.Waiting
    requires started == l.(queue := Claimed(l.queue, set k | k in claimed))
    requires |Batched(c, started, claimed, |claimed|).held| == |claimed|
    ensures Ended(c, started, claimed, |claimed|) == l.(held := claimed)
    ensures forall i :: 0 <= i < |claimed| ==> HeldBack(started, claimed[i])
  {
    HeldTurns(c, started, claimed, |claimed|);
    assert claimed[..|claimed|] == claimed && claimed[|claimed|..] + claimed == claimed;
    ClaimUndone(l.queue, claimed);
  }

  /** A round that holds back all it claimed changes nothing, and the next would claim the same. */
  lemma {:induction false} AllHeld(c: Setting, l: Ledger, claimed: seq<nat>, claimBefore: int)
    requires claimed != [] && FirstClaimable(l.queue, claimed, BATCH, claimBefore)
    requires |Rounded(c, l, Round(claimed, |claimed|)).held| == |claimed|
    ensures Rounded(c, l, Round(claimed, |claimed|)) == l.(held := claimed)
    ensures BlockedBy(l.queue, l.rows, claimed, claimBefore)
  {
    var started := l.(queue := Claimed(l.queue, set k | k in claimed));
    RoundHeld(c, l, started, claimed);
    HeldRows(l, started, claimed);
  }

  lemma {:induction false} HeldRows(l: Ledger, started: Ledger, claimed: seq<nat>)
    requires forall k :: k in claimed ==> k in l.queue
    requires started == l.(queue := Claimed(l.queue, set k | k in claimed))
    requires forall i :: 0 <= i < |claimed| ==> HeldBack(started, claimed[i])
    ensures forall k :: k in claimed ==> l.queue[k].action == Queue.Upload && InConflict(l.rows, l.queue[k].inode)
  {
    forall k | k in claimed ensures l.queue[k].action == Queue.Upload && InConflict(l.rows, l.queue[k].inode) {
      var i :| 0 <= i < |claimed| && claimed[i] == k;
      assert HeldBack(started, k);
    }
  }

  lemma {:induction false} ClaimUndone(q: Queue.Table, ks: seq<nat>)
    requires forall k :: k in ks ==> k in q && q[k].state == Queue.Waiting
    ensures var claimed := Claimed(q, set k | k in ks); Released(claimed, ks, claimed) == q
  {
  }

  class Processor {
    const db: CacheDB
    const syncMode: bool
    var nodes: map<nat, Node>

    constructor (db: CacheDB, syncMode: bool)
      ensures this.db == db && this.syncMode == syncMode && nodes == map[]
    {
      this.db, this.syncMode, nodes := db, syncMode, map[];
    }

    predicate HeldByConflict(e: Queue.Entry)
      reads this, db
    {
      e.action == Queue.Upload && InConflict(db.rows, e.inode)
    }

    /** The node-and-row part of a confirmed upload, from the comparison with the local file on. */
    method SettleUpload(e: Queue.Entry, w: World)
      requires db.Valid() && e.action == Queue.Upload && w.outcome.Confirmed?
      modifies this, db`rows, db`queue, db`nextEntry
      ensures db.Valid()
      ensures var changed := NeedsFollowUp(syncMode, e.inode in old(nodes), e, w);
              && db.rows == SettledRows(old(db.rows), e, w, changed)
              && nodes == SettledNodes(old(nodes), e, w, changed)
              && db.nextEntry == old(db.nextEntry) + (if changed && !db.writebackDisabled then 1 else 0)
              && db.queue == (if changed && !db.writebackDisabled
                              then Queue.Enqueue(old(db.queue), old(db.nextEntry), e.inode, FollowUp(syncMode, w),
                                                 w.now)
                              else old(db.queue))
    {
      var id, digest, etag := e.inode, w.outcome.digest, w.outcome.etag;
      db.UpdateInode(id, r => RecordUploaded(r, digest, etag));
      var localChanged := syncMode && w.localDigest != Some(digest);
      var tracked := id in nodes;
      if localChanged || (tracked && w.generationMoved) {
        if tracked { nodes := nodes[id := nodes[id].(dirty := true, status := Pending, etag := etag)]; }
        FollowUpLater(id, FollowUp(syncMode, w), w.now);
      } else {
        if tracked { nodes := nodes[id := nodes[id].(dirty := false, status := Synced, etag := etag)]; }
        db.UpdateInode(id, r => MarkSynced(r, etag));
      }
    }

    /** The row stays dirty and the change is queued. */
    method FollowUpLater(id: nat, action: Queue.Action, now: int)
      requires db.Valid()
      modifies db`rows, db`queue, db`nextEntry
      ensures db.Valid() && db.nextEntry == old(db.nextEntry) + if db.writebackDisabled then 0 else 1
      ensures db.rows == if id !in old(db.rows) then old(db.rows)
                         else old(db.rows)[id := CacheRow.MarkDirty(old(db.rows)[id])]
      ensures db.queue == if db.writebackDisabled then old(db.queue)
                          else Queue.Enqueue(old(db.queue), old(db.nextEntry), id, action, now)
    {
      db.UpdateInode(id, r => CacheRow.MarkDirty(r));
      var ok := db.EnqueueWriteback(id, action, now);
      if !ok { db.UpdateInode(id, r => SetSyncStatus(r, Pending)); }
    }

    /** processEntry. */
    method ProcessEntry(k: nat, w: World) returns (flushed: bool)
      requires db.Valid() && k in db.queue && db.queue[k].state == Queue.InProgress
      modifies this, db`rows, db`queue, db`nextEntry
      ensures db.Valid()
      ensures flushed == w.outcome.Confirmed?
      ensures var e := old(db.queue)[k];
              var changed := NeedsFollowUp(syncMode, e.inode in old(nodes), e, w);
              && db.rows == SettledRows(old(db.rows), e, w, changed)
              && nodes == SettledNodes(old(nodes), e, w, changed)
              && db.queue == SettledQueue(old(db.queue), k, w, changed && !db.writebackDisabled, old(db.nextEntry),
                                          syncMode)
              && db.nextEntry == old(db.nextEntry) + (if changed && !db.writebackDisabled then 1 else 0)
    {
      var e := db.queue[k];
      var id := e.inode;
      match w.outcome
      case Error(permanent, delay) =>
        var attempts := e.attempts + 1;
        if attempts >= MAX_RETRIES || permanent {
          db.UpdateWriteback(k, Queue.GaveUp, attempts, None);
          db.UpdateInode(id, r => SetSyncStatus(r, Failed));
          if id in nodes { nodes := nodes[id := nodes[id].(status := Failed)]; }
        } else {
          db.UpdateInode(id, r => SetSyncStatus(r, Pending));
          db.UpdateWriteback(k, Queue.Waiting, attempts, Some(w.now + delay));
        }
        flushed := false;
      case Confirmed(digest, etag) =>
        db.DeleteWriteback(k);
        if e.action == Queue.Upload {
          SettleUpload(e, w);
        } else {
          db.UpdateInode(id, r => MarkSynced(r, ""));
        }
        flushed := true;
    }

    /** requeue: the captured attempts are written back. */
    method Requeue(ks: seq<nat>, captured: Queue.Table)
      requires db.Valid() && forall k :: k in ks ==> k in captured && captured[k].attempts < 3
      modifies db`queue
      ensures db.Valid()
      ensures db.queue == Released(old(db.queue), ks, captured)
    {
      var i := 0;
      while i < |ks|
        invariant 0 <= i <= |ks| && db.Valid()
        invariant db.queue == Released(old(db.queue), ks[..i], captured)
      {
        assert ks[..i + 1] == ks[..i] + [ks[i]];
        db.UpdateWriteback(ks[i], Queue.Waiting, captured[ks[i]].attempts, None);
        i := i + 1;
      }
      assert ks[..|ks|] == ks;
    }

    /** The object's state, apart from what is kept for the specification. */
    ghost predicate Is(l: Ledger)
      reads this, db
    {
      db.rows == l.rows && nodes == l.nodes && db.queue == l.queue && db.nextEntry == l.next
    }

    ghost predicate Under(c: Setting)
      reads this, db
    {
      c.syncMode == syncMode && c.writable == !db.writebackDisabled
    }

    /** One entry's turn in a batch. */
    method Turn(k: nat, w: World, ghost c: Setting, ghost l: Ledger) returns (heldBack: bool, ok: bool)
      requires db.Valid() && Is(l) && Under(c) && k in db.queue && db.queue[k].state == Queue.InProgress
      requires w == c.env(|l.log|)
      modifies this, db`rows, db`queue, db`nextEntry
      ensures db.Valid() && Is(Turned(c, l, k))
      ensures heldBack == HeldBack(l, k) && ok == (!heldBack && w.outcome.Confirmed?)
    {
      if HeldByConflict(db.queue[k]) { return true, false; }
      ok := ProcessEntry(k, w);
      heldBack := false;
    }

    /** The turn of the i-th entry, with the counts of the turns before it. */
    method CountTurn(entries: seq<nat>, i: nat, env: nat -> World, held: seq<nat>, flushed: nat, spent: nat, tick: nat,
                     ghost c: Setting, ghost l: Ledger) returns (held': seq<nat>, flushed': nat, spent': nat)
      requires db.Valid() && InBatch(l.queue, entries) && Sound(l) && i < |entries|
      requires Under(c) && c.env == env && |l.log| == tick
      requires Is(Batched(c, l, entries, i)) && TurnsTaken(l, Batched(c, l, entries, i), held, flushed, spent)
      modifies this, db`rows, db`queue, db`nextEntry
      ensures db.Valid() && Is(Batched(c, l, entries, i + 1))
      ensures TurnsTaken(l, Batched(c, l, entries, i + 1), held', flushed', spent')
    {
      NextIsClaimed(c, l, entries, i);
      BatchedNext(c, l, entries, i);
      TurnCounts(c, Batched(c, l, entries, i), entries[i]);
      var heldBack, ok := Turn(entries[i], env(tick + spent), c, Batched(c, l, entries, i));
      if heldBack {
        held', flushed', spent' := held + [entries[i]], flushed, spent;
      } else {
        held', flushed', spent' := held, if ok then flushed + 1 else flushed, spent + 1;
      }
    }

    /** The turns of a claimed batch, until the context's checks are used up. */
    method TakeTurns(entries: seq<nat>, checks: nat, env: nat -> World, tick: nat, ghost c: Setting, ghost l: Ledger)
        returns (i: nat, held: seq<nat>, flushed: nat, spent: nat)
      requires db.Valid() && Sound(l) && InBatch(l.queue, entries)
      requires Is(l) && Under(c) && c.env == env && |l.log| == tick
      modifies this, db`rows, db`queue, db`nextEntry
      ensures db.Valid() && i == (if checks < |entries| then checks else |entries|)
      ensures var b := Batched(c, l, entries, i); Is(b) && TurnsTaken(l, b, held, flushed, spent)
    {
      held, flushed, spent, i := [], 0, 0, 0;
      while i < |entries| && i < checks
        invariant 0 <= i <= |entries| && i <= checks && db.Valid() && Under(c)
        invariant Is(Batched(c, l, entries, i)) && TurnsTaken(l, Batched(c, l, entries, i), held, flushed, spent)
      {
        held, flushed, spent := CountTurn(entries, i, env, held, flushed, spent, tick, c, l);
        i := i + 1;
      }
    }

    /**
     The loop over one claimed batch, shared by processBatch and FlushAll.  The context survives the
     given number of checks.  Every entry that has its turn is held back or processed in the next world.
     */
    method RunBatch(entries: seq<nat>, checks: nat, env: nat -> World, tick: nat, ghost c: Setting, ghost l: Ledger)
        returns (held: seq<nat>, flushed: nat, spent: nat, expired: bool)
      requires db.Valid() && Sound(l) && InBatch(l.queue, entries)
      requires Is(l) && Under(c) && c.env == env && |l.log| == tick
      modifies this, db`rows, db`queue, db`nextEntry
      ensures db.Valid() && (expired <==> checks < |entries|)
      ensures var b := Ended(c, l, entries, if expired then checks else |entries|);
              && Is(b) && TurnsTaken(l, b, held, flushed, spent) && EndKept(l, entries, b)
      ensures |held| + spent == (if expired then checks else |entries|)
      ensures DriftFree(env) ==> db.Work() + spent <= old(db.Work())
    {
      var captured, i := db.queue, 0;
      i, held, flushed, spent := TakeTurns(entries, checks, env, tick, c, l);
      expired := i < |entries|;
      EndKeeps(c, l, entries, i);
      Requeue(entries[i..] + held, captured);
    }

    /** processBatch, on what the clock allows it to claim. */
    method ProcessBatch(checks: nat, claimBefore: int, env: nat -> World, tick: nat, ghost c: Setting, ghost l: Ledger)
        returns (claimed: seq<nat>, held: seq<nat>, flushed: nat, spent: nat, expired: bool)
      requires db.Valid() && Is(l) && Under(c) && c.env == env && |l.log| == tick
      modifies this, db`rows, db`queue, db`nextEntry
      ensures db.Valid() && FirstClaimable(old(db.queue), claimed, BATCH, claimBefore)
      ensures expired <==> checks < |claimed|
      ensures var next := Rounded(c, l, RoundOf(claimed, checks));
              && Is(next) && TurnsTaken(l, next, held, flushed, spent)
              && RoundKept(c, l, RoundOf(claimed, checks), next)
    {
      claimed := db.DequeueWriteback(BATCH, claimBefore);
      RoundKeeps(c, l, RoundOf(claimed, checks), claimBefore);
      held, flushed, spent, expired := RunBatch(claimed, checks, env, tick, c, l.(queue := db.queue));
    }

    /**
     FlushAll.  The context survives the given number of checks and clock r is the claim bound of round r; history
     are the rounds.  Each round claims the first claimable rows and gives each its turn, up to the deadline.
     When no upload drifts from its file, the retries left bound the number of entries processed, and a
     context that outlives them is never the reason to stop.
     */
    method FlushAll(checks: nat, env: nat -> World, clock: nat -> int)
        returns (end: FlushEnd, flushed: nat, spent: nat, rounds: nat, ghost history: seq<Round>)
      requires db.Valid()
      modifies this, db`rows, db`queue, db`nextEntry
      ensures db.Valid()
      ensures end == Refused <==> db.writebackDisabled
      ensures var c := Setting(syncMode, !db.writebackDisabled, env);
              var start := Ledger(old(db.rows), old(nodes), old(db.queue), old(db.nextEntry), [], []);
              Proper(history) && Is(Flushed(c, start, history))
              && FlushedBy(c, start, Flushed(c, start, history), history, clock, flushed, spent)
      ensures EndsBy(end, history, checks, db.queue, db.rows, rounds, clock)
      ensures SameInProgress(old(db.queue), db.queue)
      ensures ConflictsUntouched(old(db.queue), old(db.rows), db.queue, db.rows)
      ensures DriftFree(env) ==> db.Work() + spent <= old(db.Work())
      ensures DriftFree(env) && checks >= BATCH * (old(db.Work()) + 1) ==> end != TimedOut
    {
      end, flushed, spent, rounds, history := Refused, 0, 0, 0, [];
      ghost var c := Setting(syncMode, !db.writebackDisabled, env);
      ghost var start := Ledger(db.rows, nodes, db.queue, db.nextEntry, [], []);
      if db.writebackDisabled { return; }
      end, flushed, spent, rounds, history := Rounds(checks, env, clock, c, start);
      FlushKeeps(c, start, history, clock);
    }

    /** One round of FlushAll. */
    method FlushRound(left: nat, env: nat -> World, clock: nat -> int, flushed: nat, spent: nat, rounds: nat,
                      ghost c: Setting, ghost start: Ledger, ghost l: Ledger, ghost history: seq<Round>,
                      ghost checks: nat)
        returns (end: FlushEnd, flushed': nat, spent': nat, rounds': nat, left': nat, ghost l': Ledger,
                 ghost history': seq<Round>)
      requires db.Valid() && Is(l) && Under(c) && c.env == env
      requires Underway(c, start, l, history, clock, flushed, spent, checks, left) && rounds == |history|
      modifies this, db`rows, db`queue, db`nextEntry
      ensures db.Valid() && Is(l') && (end == Refused ==> left' < left)
      ensures Stage(c, start, l', history', clock, flushed', spent', checks, left', end, rounds')
    {
      var claimed, held, f, n, expired := ProcessBatch(left, clock(rounds), env, spent, c, l);
      ghost var r, next := RoundOf(claimed, left), Rounded(c, l, RoundOf(claimed, left));
      NextStage(c, start, l, history, clock, flushed, spent, checks, left, claimed, r, next, f, n);
      flushed', spent', rounds', left', l', history' := flushed + f, spent + n, rounds, left, next, history + [r];
      if claimed == [] {
        end, l', history' := Drained, l, history;
      } else if expired {
        end := TimedOut;
      } else if |held| == |claimed| {
        end := Blocked;
      } else {
        end, left', rounds' := Refused, left - |claimed|, rounds + 1;
      }
    }

    /** The loop of FlushAll. */
    method Rounds(checks: nat, env: nat -> World, clock: nat -> int, ghost c: Setting, ghost start: Ledger)
        returns (end: FlushEnd, flushed: nat, spent: nat, rounds: nat, ghost history: seq<Round>)
      requires db.Valid() && Is(start) && Sound(start) && start.log == [] && Under(c) && c.env == env
      modifies this, db`rows, db`queue, db`nextEntry
      ensures db.Valid() && end != Refused && Proper(history)
      ensures var l := Flushed(c, start, history);
              Is(l) && Over(c, start, l, history, clock, flushed, spent, checks, end, rounds)
    {
      end, flushed, spent, rounds, history := Refused, 0, 0, 0, [];
      var left: nat := checks;
      ghost var l := start;
      while end == Refused
        invariant db.Valid() && Is(l) && Under(c)
        invariant Stage(c, start, l, history, clock, flushed, spent, checks, left, end, rounds)
        decreases end == Refused, left
      {
        end, flushed, spent, rounds, left, l, history :=
          FlushRound(left, env, clock, flushed, spent, rounds, c, start, l, history, checks);
      }
    }
  }
}
