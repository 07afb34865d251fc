/**
 The decisions of the sync-mode actors.  Each is a function from what the actor read to the statements
 it goes on to issue; nothing here assumes that the reads were simultaneous or are still current.
 */
module SyncActors {
  import opened Options
  import opened CacheRow
  import opened SyncState
  import Queue

  /** One look at the row, the local file and the in-memory node. */
  datatype Look = Look(row: Option<Row>, disk: Option<LocalFile>, node: Node)

  /** The values an actor read before deciding.  One that looks again may find others: more are its later looks. */
  datatype Seen = Seen(row: Option<Row>, disk: Option<LocalFile>, node: Node, more: seq<Look> := []) {
    function At(k: nat): Look { if 0 < k <= |more| then more[k - 1] else Look(row, disk, node) }
  }

  datatype Choice = KeepLocal | KeepRemote | KeepBoth

  datatype Task =
    /** walkForDownloads and, when initial, walkAndSync; due and valid are downloadDue and ValidateFile. */
    | Walk(node: nat, initial: bool, due: bool, valid: bool)
    /** pollRecursive on an entry that has a node; drifted is the size/mtime comparison. */
    | PollEntry(node: nat, etag: string, drifted: bool, listedSize: Option<nat>)
    | PollNew(node: nat, etag: string, size: nat)
    | PollPrune
    /** syncFile and handleRemove of the watcher. */
    | Ingest(valid: bool)
    | Removed
    /** healEntry of the reconciler. */
    | Heal(valid: bool, uploadWithheld: bool, downloadFailed: bool, uploadInFlight: bool)
    /** scanLocalNewFiles, cleanupStaleEntries and populateDir of a start. */
    | ScanNew(valid: bool)
    | CleanStale
    /** The "clean" command of the daemon. */
    | CleanRejected
    | Populate(node: nat, etag: string, size: nat)
    | Repopulate(node: nat, etag: string, listedSize: Option<nat>)
    /** InvalidateCache by the evictor. */
    | Evict(owner: Option<nat>)
    /** resolveConflict and retryFailed of the daemon. */
    | ResolveConflict(choice: Choice, owner: Option<nat>)
    | RetryFailed(owner: Option<nat>)

  datatype Plan = Statements(ops: seq<Op>) | Download(before: Option<Snapshot>)

  /** The path every event is about; its spelling plays no role. */
  const THIS_PATH := "file"

  function Nothing(): Plan { Statements([]) }

  /** markLocalConflict. */
  function Conflicted(node: nat, id: nat): Plan {
    Statements([ConflictRow(Id(id)), UpdateNode(node, Patch(None, None, Some(false), Some(true), Some(Conflict)))])
  }

  function NewInode(path: string, size: nat, status: Status): Inode {
    Inode(path, size, false, true, "", "", "", status)
  }

  /** localCopyMatches, with its own looks at the row and the file. */
  predicate LocalCopyMatches(h: Digest, seen: Seen) {
    var row, state, disk := seen.At(2).row, seen.At(3).row, seen.At(3).disk;
    && seen.At(0).disk.Some? && disk.Some? && row.Some? && state.Some?
    && |seen.At(0).disk.value.content| == seen.At(1).node.size
    && seen.At(1).node.etag != ""
    && row.value.localHash != ""
    && state.value.localEtag == seen.At(1).node.etag
    && h(disk.value.content) == row.value.localHash
  }

  function EnqueueLocalUpload(node: nat, seen: Seen, valid: bool): Plan {
    var size := if seen.disk.Some? then |seen.disk.value.content| else 0;
    var track :=
      [UpdateNode(node, Patch(None, Some(size), Some(false), Some(true), None)),
       UpsertRow(NewInode(THIS_PATH, size, if valid then Pending else Rejected)),
       AdoptId(node),
       LocalContent(Returned, "")];
    Statements(if valid then track + [Enqueue(Returned, Queue.Upload, 0)] else track)
  }

  /** downloadFile up to the fetch: it reads the row three times. */
  function BeginDownload(h: Digest, node: nat, seen: Seen): Plan {
    var disk := seen.At(7).disk;
    if RowDirty(seen.At(7).row) then Conflicted(node, seen.At(7).node.id)
    else if disk.Some? && (BaselineOf(seen.At(8).row) == "" || h(disk.value.content) != BaselineOf(seen.At(9).row)) then
      Conflicted(node, seen.At(9).node.id)
    else if disk.Some? then Download(Some(Snap(h, disk.value)))
    else Download(None)
  }

  /** protectLocalCollision; None lets the walk go on to the download. */
  function ProtectCollision(h: Digest, node: nat, seen: Seen, valid: bool): Option<Plan> {
    var baseline, disk, now := BaselineOf(seen.At(5).row), seen.At(5).disk, seen.At(6);
    if RowDirty(seen.At(4).row) then Some(Nothing())
    else if baseline == "" || disk.None? then Some(Conflicted(node, seen.At(5).node.id))
    else if h(disk.value.content) != baseline then
      if now.node.etag != "" && now.row.Some? && now.row.value.localEtag == now.node.etag
      then Some(EnqueueLocalUpload(node, seen, valid))
      else Some(Conflicted(node, now.node.id))
    else None
  }

  function PlanWalk(h: Digest, seen: Seen, node: nat, initial: bool, due: bool, valid: bool): Plan {
    if !initial && (seen.node.cached || seen.node.dirty || RowDirty(seen.row)) then Nothing()
    else if seen.disk.None? then (if initial || due then BeginDownload(h, node, seen) else Nothing())
    else if initial && RowDirty(seen.row) then
      if BaselineOf(seen.At(1).row) == "" then Conflicted(node, seen.At(1).node.id) else Nothing()
    else if LocalCopyMatches(h, seen) then
      Statements([UpdateNode(node, Patch(None, None, Some(true), None, None)),
                  StatusRow(Id(seen.At(3).node.id), Synced)])
    else
      match ProtectCollision(h, node, seen, valid)
      case Some(plan) => plan
      case None => if initial || due then BeginDownload(h, node, seen) else Nothing()
  }

  /** Versions decide when both are known; otherwise size, time or version may have moved. */
  predicate RemoteChanged(n: Node, etag: string, drifted: bool) {
    if n.etag != "" && etag != "" then n.etag != etag else drifted || n.etag != etag
  }

  function PlanPollEntry(seen: Seen, node: nat, etag: string, drifted: bool, size: Option<nat>): Plan {
    var locallyDirty := seen.node.dirty || RowDirty(seen.row);
    var remoteChanged := RemoteChanged(seen.node, etag, drifted);
    var id := Id(seen.node.id);
    if locallyDirty && remoteChanged then
      if seen.node.status == Conflict then Nothing()
      else Statements([UpdateNode(node, Patch(None, None, None, None, Some(Conflict))), StatusRow(id, Conflict)])
    else
      var adopt := [UpdateNode(node, Patch(Some(etag), None, None, None, None)), RemoteVersion(id, etag)];
      if !locallyDirty && remoteChanged then
        Statements([UpdateNode(node, Patch(None, size, Some(false), None, None)), InvalidateRow(id)] + adopt)
      else Statements(adopt)
  }

  function PlanIngest(h: Digest, seen: Seen, valid: bool): Plan {
    if seen.disk.None? then Nothing()
    else
      var hash := h(seen.disk.value.content);
      if seen.row.Some? && seen.row.value.contentHash == hash && seen.row.value.status == Synced then Nothing()
      else
        var upsert := UpsertRow(Inode(THIS_PATH, |seen.disk.value.content|, true, true, hash, "", "",
                                      if valid then Pending else Rejected));
        Statements(if valid then [upsert, Enqueue(Returned, Queue.Upload, 0)] else [upsert])
  }

  function PlanRemoved(seen: Seen): Plan {
    match seen.row
    case None => Nothing()
    case Some(r) =>
      if r.status != Synced && r.status != Conflict then Statements([DropQueued(Id(r.id)), DeleteRow])
      else Statements([Enqueue(Id(r.id), Queue.Delete, 0)])
  }

  /** queueNewFile, and the file branch of scanLocalNewFiles. */
  function PlanNewFile(seen: Seen, valid: bool): Plan
    requires seen.disk.Some?
  {
    var upsert := UpsertRow(NewInode(THIS_PATH, |seen.disk.value.content|, if valid then Pending else Rejected));
    Statements(if valid then [upsert, Enqueue(Returned, Queue.Upload, 0)] else [upsert])
  }

  /** requeueUpload: the whole row read earlier is written back, then its local content is cleared. */
  function RequeueUpload(r: Row, size: nat, valid: bool, uploadInFlight: bool): Plan {
    if !valid then Statements([StatusRow(Id(r.id), Rejected)])
    else if uploadInFlight then Nothing()
    else Statements(
      [DropFailedUploads(Id(r.id)),
       UpsertRow(Inode(r.path, size, false, true, "", r.localHash, r.etag, Pending)),
       LocalContent(Returned, ""),
       Enqueue(Returned, Queue.Upload, 0)])
  }

  /** The synced case: state is the second look at the row, f the file when it was hashed, size its size before. */
  function PlanHealSynced(h: Digest, r: Row, state: Option<Row>, f: Option<LocalFile>, size: nat, valid: bool,
                          uploadInFlight: bool): Plan {
    if state.None? then Nothing()
    else
      var now := state.value;
      var remoteUnchanged := now.localHash != "" && r.etag != "" && now.localEtag == r.etag;
      if Baseline(now) == "" then Statements([ConflictRow(Id(r.id))])
      else if f.None? then Nothing()
      else if h(f.value.content) == Baseline(now) then
        if now.localHash != "" then Statements([LocalContentFor(Id(r.id), now.localHash, now.localEtag)]) else Nothing()
      else if !remoteUnchanged then Statements([ConflictRow(Id(r.id))])
      else RequeueUpload(r, size, valid, uploadInFlight)
  }

  function PlanHeal(h: Digest, seen: Seen, valid: bool, uploadWithheld: bool, downloadFailed: bool,
                    uploadInFlight: bool): Plan {
    if seen.disk.None? then Nothing()
    else match seen.row
      case None => PlanNewFile(seen, valid)
      case Some(r) =>
        match r.status
        case Rejected => Nothing()
        case Conflict => Nothing()
        case Offline => Nothing()
        case Failed =>
          if uploadWithheld || (!r.dirty && downloadFailed) then Nothing()
          else RequeueUpload(r, |seen.disk.value.content|, valid, uploadInFlight)
        case Synced =>
          PlanHealSynced(h, r, seen.At(1).row, seen.At(1).disk, |seen.disk.value.content|, valid, uploadInFlight)
        case Pending => if uploadInFlight then Nothing() else Statements([Enqueue(Id(r.id), Queue.Upload, 0)])
  }

  /** populateDir for an entry without a node: a dirty row keeps its version and status. */
  function PlanPopulate(seen: Seen, node: nat, etag: string, size: nat): Plan {
    var listed :=
      if RowDirty(seen.row) then
        var r := seen.row.value;
        Node(r.id, r.etag, r.size, false, true, if r.etag != etag then Conflict else r.status)
      else Node(0, etag, size, false, false, Synced);
    Statements([UpsertRow(Inode(THIS_PATH, listed.size, false, listed.dirty, "", "", listed.etag, listed.status)),
                AttachNode(node, listed)])
  }

  /** populateDir for an entry that has a node. */
  function PlanRepopulate(seen: Seen, node: nat, etag: string, size: Option<nat>): Plan {
    var locallyDirty := seen.node.dirty || RowDirty(seen.row);
    var id := Id(seen.node.id);
    if locallyDirty && seen.node.etag != etag then
      Statements([UpdateNode(node, Patch(None, None, None, None, Some(Conflict))), ConflictRow(id)])
    else
      var drop := if seen.node.etag == etag then []
                  else [UpdateNode(node, Patch(None, None, Some(false), None, None)), InvalidateRow(id)];
      Statements(drop + [UpdateNode(node, Patch(Some(etag), size, None, None, None)), RemoteVersion(id, etag)])
  }

  function SetNode(node: Option<nat>, status: Status, dirty: bool): seq<Op> {
    if node.None? then []
    else [UpdateNode(node.value, Patch(None, None, if dirty then None else Some(false), Some(dirty), Some(status)))]
  }

  function PlanResolve(seen: Seen, choice: Choice, node: Option<nat>, readOnly: bool): Plan {
    if seen.row.None? || seen.row.value.status != Conflict then Nothing()
    else
      var id := Id(seen.row.value.id);
      var accept := [DropQueued(id), SyncedRow(id, ""), InvalidateRow(id)] + SetNode(node, Synced, false);
      match choice
      case KeepLocal =>
        if readOnly then Nothing()
        else Statements([DropQueued(id), DirtyRow(id), Enqueue(id, Queue.Upload, 0)] + SetNode(node, Pending, true))
      case KeepRemote => Statements([DiscardLocal] + accept)
      case KeepBoth => Statements([KeepCopy] + accept)
  }

  function PlanRetry(seen: Seen, node: Option<nat>): Plan {
    if seen.row.None? || seen.row.value.status == Conflict || seen.row.value.status == Rejected then Nothing()
    else
      var id := Id(seen.row.value.id);
      if seen.row.value.dirty then
        Statements([DropFailedUploads(id), StatusRow(id, Pending), Enqueue(id, Queue.Upload, 0)]
          + (if node.None? then [] else [UpdateNode(node.value, Patch(None, None, None, Some(true), Some(Pending)))]))
      else
        Statements([DropFailedUploads(id), StatusRow(id, Synced)]
          + (if node.None? then [] else [UpdateNode(node.value, Patch(None, None, Some(false), None, Some(Synced)))]))
  }

  function MakePlan(h: Digest, seen: Seen, task: Task, readOnly: bool): Plan {
    match task
    case Walk(n, initial, due, valid) => PlanWalk(h, seen, n, initial, due, valid)
    case PollEntry(n, etag, drifted, size) => PlanPollEntry(seen, n, etag, drifted, size)
    case PollNew(n, etag, size) =>
      Statements([UpsertRow(Inode(THIS_PATH, size, false, false, "", "", etag, Synced)),
                  AttachNode(n, Node(0, etag, size, false, false, Synced))])
    case PollPrune =>
      if seen.node.dirty || RowDirty(seen.row) then Nothing()
      else Statements([DetachNode, TrashLocal, DeleteRow])
    case Ingest(valid) => PlanIngest(h, seen, valid)
    case Removed => PlanRemoved(seen)
    case Heal(valid, withheld, dlFailed, inFlight) => PlanHeal(h, seen, valid, withheld, dlFailed, inFlight)
    case ScanNew(valid) => if seen.disk.None? || seen.row.Some? then Nothing() else PlanNewFile(seen, valid)
    case CleanStale =>
      if seen.row.Some? && seen.disk.None? && (seen.row.value.status == Failed || seen.row.value.status == Rejected)
      then Statements([PurgeFailed, DropQueued(Id(seen.row.value.id)), DeleteRow])
      else Statements([PurgeFailed])
    case CleanRejected =>
      Statements([DeleteIfRejected] + (if seen.node.status == Rejected then [DetachNode] else []))
    case Populate(n, etag, size) => PlanPopulate(seen, n, etag, size)
    case Repopulate(n, etag, size) => PlanRepopulate(seen, n, etag, size)
    case Evict(n) =>
      if seen.row.None? || !seen.row.value.cached || seen.row.value.dirty || seen.row.value.pinned then Nothing()
      else Statements([InvalidateRow(Id(seen.row.value.id))]
                      + (if n.None? then [] else [UpdateNode(n.value, Patch(None, None, Some(false), None, None))]))
    case ResolveConflict(choice, n) => PlanResolve(seen, choice, n, readOnly)
    case RetryFailed(n) => PlanRetry(seen, n)
  }

  /** commitDownload, after the node fields were set; a version that moved meanwhile is invalidated. */
  function CommitOps(h: Digest, id: nat, body: Content, etag: string, remoteChanged: bool): seq<Op> {
    [CachedRow(Id(id), 0), SizeRow(Id(id), |body|), LocalContentFor(Id(id), h(body), etag), StatusRow(Id(id), Synced)]
      + (if remoteChanged then [InvalidateRow(Id(id))] else [])
  }

  /** processEntry after a confirmed upload, up to the comparison with the local file. */
  function RecordUploadOps(entry: nat, inode: nat, digest: string, etag: string): seq<Op> {
    [RemoveEntry(entry), RemoteVersion(Id(inode), etag), LocalContentFor(Id(inode), digest, etag)]
  }

  /** processEntry from the comparison with the local file to the end. */
  function SettleOps(h: Digest, a: After, disk: Option<LocalFile>, generationMoved: bool): seq<Op>
    requires a.SettleUpload?
  {
    var changed := disk.None? || h(disk.value.content) != a.digest;
    var id := Id(a.inode);
    var next := if disk.None? then Queue.Delete else Queue.Upload;
    if changed || (a.owner.Some? && generationMoved) then
      (if a.owner.None? then [] else
        [UpdateNode(a.owner.value, Patch(Some(a.etag), None, None, Some(true), Some(Pending)))])
      + [DirtyRow(id), Enqueue(id, next, 0)]
    else
      (if a.owner.None? then [] else
        [UpdateNode(a.owner.value, Patch(Some(a.etag), None, None, Some(false), Some(Synced)))])
      + [SyncedRow(id, a.etag)]
  }

  /** The error branch of processEntry; owner is the node of the file, if there is one. */
  function FailOps(entry: nat, inode: nat, owner: Option<nat>, attempts: nat, permanent: bool): seq<Op> {
    if attempts + 1 >= 3 || permanent
    then [UpdateEntry(entry, Queue.GaveUp, attempts + 1), StatusRow(Id(inode), Failed)]
         + (if owner.None? then [] else [UpdateNode(owner.value, Patch(None, None, None, None, Some(Failed)))])
    else [StatusRow(Id(inode), Pending), UpdateEntry(entry, Queue.Waiting, attempts + 1)]
  }

  /** requeue: the rows go back with the attempts they were claimed with. */
  function RequeueOps(tickets: seq<Ticket>): seq<Op> {
    if tickets == [] then []
    else [UpdateEntry(tickets[0].key, Queue.Waiting, tickets[0].entry.attempts)] + RequeueOps(tickets[1..])
  }
}
