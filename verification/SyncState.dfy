/**
 The shared state of sync mode for one path, and the atomic statements the actors issue on it.
 A statement is one SQL UPDATE, one locked update of an in-memory node, or one rename of the local
 file.  An actor's remaining statements are its script, so scripts of different actors interleave
 statement by statement.
 */
module SyncState {
  import opened Options
  import opened CacheRow
  import Queue
  import Machine

  type Content = Machine.Bytes
  type Digest = Content -> string

  /** A regular file in the sync folder; ident and mtime stand for os.SameFile and ModTime. */
  datatype LocalFile = LocalFile(content: Content, ident: nat, mtime: int)

  /** What readLocalDownloadState keeps of a local file. */
  datatype Snapshot = Snapshot(hash: string, ident: nat, mtime: int, size: nat)

  /** The fields of vfs.Node the syncer touches. */
  datatype Node = Node(id: nat, etag: string, size: nat, cached: bool, dirty: bool, status: Status)

  /** The row a statement addresses: a captured id, or the id the script's own upsert returned. */
  datatype Target = Id(id: nat) | Returned

  /** The node fields one locked update assigns; None leaves a field alone. */
  datatype Patch = Patch(etag: Option<string>, size: Option<nat>, cached: Option<bool>,
                         dirty: Option<bool>, status: Option<Status>)

  datatype Op =
    | UpsertRow(inode: Inode)
    | DeleteRow
    | DeleteIfRejected
    | DirtyRow(target: Target)
    | SyncedRow(target: Target, etag: string)
    | CachedRow(target: Target, now: int)
    | SizeRow(target: Target, size: nat)
    | LocalContent(target: Target, hash: string)
    | LocalContentFor(target: Target, hash: string, etag: string)
    | InvalidateRow(target: Target)
    | StatusRow(target: Target, status: Status)
    | ConflictRow(target: Target)
    | RemoteVersion(target: Target, etag: string)
    | Enqueue(target: Target, action: Queue.Action, now: int)
    | DropQueued(target: Target)
    | DropFailedUploads(target: Target)
    | PurgeFailed
    | RemoveEntry(entry: nat)
    | UpdateEntry(entry: nat, state: Queue.State, attempts: nat)
    | UpdateNode(node: nat, patch: Patch)
    | AdoptId(node: nat)
    | AttachNode(node: nat, child: Node)
    | DetachNode
    | TrashLocal
    | KeepCopy
    | DiscardLocal

  /** What an actor does when its script is empty. */
  datatype After = Finish | SettleUpload(entry: nat, inode: nat, owner: Option<nat>, digest: string, etag: string)

  datatype Thread =
    | Script(ops: seq<Op>, returned: nat, after: After)
    | Fetching(node: nat, etag: string, before: Option<Snapshot>)
    | Fetched(node: nat, etag: string, before: Option<Snapshot>, body: Content)
    | Published(node: nat, etag: string, body: Content)
    | Sending(entry: nat, inode: nat, owner: Option<nat>, attempts: nat, body: Content)

  /** A claimed queue row, as it was when it was claimed. */
  datatype Ticket = Ticket(key: nat, entry: Queue.Entry)

  /** A processor at work: what it claimed and has not looked at, what it holds back, who handles the current row. */
  datatype Batch = Batch(todo: seq<Ticket>, held: seq<Ticket>, current: Option<nat>)

  datatype Sys = Sys(
    disk: Option<LocalFile>,
    row: Option<Row>, nextRow: nat,
    queue: Queue.Table, nextEntry: nat, readOnly: bool,
    nodes: map<nat, Node>, attached: Option<nat>,
    threads: map<nat, Thread>, batches: map<nat, Batch>,
    /** Contents the server has served or accepted. */
    held: set<Content>,
    trash: set<Content>, copies: set<Content>,
    /** History: contents that were in the local file, that the user replaced or removed, and that
        the user discarded by resolving a conflict with "remote". */
    local: set<Content>, replaced: set<Content>, discarded: set<Content>,
    /** History: every value the row has had. */
    rowLog: set<Row>,
    /** History: claimed queue rows whose thread or processor was killed since the last start. */
    lost: set<nat>)

  function Snap(h: Digest, f: LocalFile): Snapshot {
    Snapshot(h(f.content), f.ident, f.mtime, |f.content|)
  }

  /** sameLocalDownloadState. */
  predicate SameState(h: Digest, before: Option<Snapshot>, now: Option<LocalFile>) {
    if before.None? || now.None? then before.None? && now.None?
    else before.value == Snap(h, now.value)
  }

  /** GetInode(id): the row of this path when it carries that id. */
  function RowById(row: Option<Row>, id: nat): Option<Row> {
    if row.Some? && row.value.id == id then row else None
  }

  predicate RowDirty(row: Option<Row>) { row.Some? && row.value.dirty }

  function BaselineOf(row: Option<Row>): string {
    if row.Some? then Baseline(row.value) else ""
  }

  function Resolve(t: Target, returned: nat): nat {
    match t case Id(id) => id case Returned => returned
  }

  function PutRow(s: Sys, r: Row): Sys { s.(row := Some(r), rowLog := s.rowLog + {r}) }

  function Or<T>(choice: Option<T>, otherwise: T): T {
    if choice.Some? then choice.value else otherwise
  }

  function PatchNode(n: Node, p: Patch): Node {
    Node(n.id, Or(p.etag, n.etag), Or(p.size, n.size), Or(p.cached, n.cached), Or(p.dirty, n.dirty),
         Or(p.status, n.status))
  }

  /** The local file leaves the sync folder and goes nowhere, to the trash, or to a conflict copy. */
  function TakeLocal(s: Sys, op: Op): Sys {
    match s.disk
    case None => s
    case Some(f) =>
      match op
      case TrashLocal => s.(disk := None, trash := s.trash + {f.content})
      case KeepCopy => s.(disk := None, copies := s.copies + {f.content})
      case DiscardLocal => s.(disk := None, discarded := s.discarded + {f.content})
      case _ => s
  }

  /** The row a statement updates, for the statements of the form UPDATE ... WHERE id = ?. */
  function UpdateTarget(op: Op): Option<Target> {
    match op
    case DirtyRow(t) => Some(t)
    case SyncedRow(t, _) => Some(t)
    case CachedRow(t, _) => Some(t)
    case SizeRow(t, _) => Some(t)
    case LocalContent(t, _) => Some(t)
    case LocalContentFor(t, _, _) => Some(t)
    case InvalidateRow(t) => Some(t)
    case StatusRow(t, _) => Some(t)
    case ConflictRow(t) => Some(t)
    case RemoteVersion(t, _) => Some(t)
    case _ => None
  }

  function Updated(op: Op, r: Row): Row {
    match op
    case DirtyRow(_) => MarkDirty(r)
    case SyncedRow(_, e) => MarkSynced(r, e)
    case CachedRow(_, now) => MarkCached(r, "", now)
    case SizeRow(_, n) => SetSize(r, n)
    case LocalContent(_, x) => CacheRow.SetLocalContent(r, x)
    case LocalContentFor(_, x, e) => SetLocalContentForVersion(r, x, e)
    case InvalidateRow(_) => InvalidateCache(r)
    case StatusRow(_, st) => SetSyncStatus(r, st)
    case ConflictRow(_) => MarkLocalConflict(r)
    case RemoteVersion(_, e) => SetRemoteVersion(r, e)
    case _ => r
  }

  /** Nothing happens when no row carries the id. */
  function RowAfter(row: Option<Row>, op: Op, returned: nat): Option<Row> {
    if UpdateTarget(op).Some? && RowById(row, Resolve(UpdateTarget(op).value, returned)).Some?
    then Some(Updated(op, row.value)) else row
  }

  function RunRowOp(s: Sys, op: Op, returned: nat): Sys {
    var row := RowAfter(s.row, op, returned);
    if UpdateTarget(op).Some? && row.Some? then PutRow(s, row.value) else s
  }

  /** The queue after a statement, and the next free entry id. */
  function QueueAfter(q: Queue.Table, next: nat, readOnly: bool, op: Op, returned: nat): (Queue.Table, nat) {
    match op
    case Enqueue(t, a, now) =>
      if readOnly then (q, next) else (Queue.Enqueue(q, next, Resolve(t, returned), a, now), next + 1)
    case DropQueued(t) => (Queue.DropInode(q, Resolve(t, returned)), next)
    case DropFailedUploads(t) => (Queue.DropFailedUploads(q, Resolve(t, returned)), next)
    case PurgeFailed => (Queue.DropFailed(q), next)
    case RemoveEntry(k) => (q - {k}, next)
    case UpdateEntry(k, st, n) => (if k in q then q[k := q[k].(state := st, attempts := n)] else q, next)
    case _ => (q, next)
  }

  function RunQueueOp(s: Sys, op: Op, returned: nat): Sys {
    var (queue, next) := QueueAfter(s.queue, s.nextEntry, s.readOnly, op, returned);
    s.(queue := queue, nextEntry := next)
  }

  function NodesAfter(nodes: map<nat, Node>, op: Op, returned: nat): map<nat, Node> {
    match op
    case UpdateNode(n, p) => if n in nodes then nodes[n := PatchNode(nodes[n], p)] else nodes
    case AdoptId(n) => if n in nodes then nodes[n := nodes[n].(id := returned)] else nodes
    case AttachNode(n, child) => if n in nodes then nodes else nodes[n := child.(id := returned)]
    case _ => nodes
  }

  function RunNodeOp(s: Sys, op: Op, returned: nat): Sys {
    var attached :=
      if op.AttachNode? && op.node !in s.nodes then Some(op.node)
      else if op.DetachNode? then None
      else s.attached;
    s.(nodes := NodesAfter(s.nodes, op, returned), attached := attached)
  }

  /** A statement on the row, the queue or a node. */
  predicate Plain(op: Op) {
    && !op.UpsertRow? && !op.DeleteRow? && !op.DeleteIfRejected?
    && !op.TrashLocal? && !op.KeepCopy? && !op.DiscardLocal?
  }

  function RunPlainOp(s: Sys, op: Op, returned: nat): Sys {
    RunNodeOp(RunQueueOp(RunRowOp(s, op, returned), op, returned), op, returned)
  }

  /** One statement of a script; the second result is the script's upsert register. */
  function RunOp(s: Sys, op: Op, returned: nat): (Sys, nat) {
    if op.UpsertRow? then
      var row := Upsert(s.row, s.nextRow, op.inode);
      (PutRow(s.(nextRow := if s.row.None? then s.nextRow + 1 else s.nextRow), row), row.id)
    else if op.DeleteRow? then (s.(row := None), returned)
    else if op.DeleteIfRejected? then
      (if s.row.Some? && s.row.value.status == Rejected then s.(row := None) else s, returned)
    else if op.TrashLocal? || op.KeepCopy? || op.DiscardLocal? then (TakeLocal(s, op), returned)
    else (RunPlainOp(s, op, returned), returned)
  }
}
