/** The write-back queue table (internal/mount/cache/db.go) as a map from row id to row. */
module Queue {
  datatype Action = Upload | Mkdir | Delete | Rename

  datatype State = Waiting | InProgress | GaveUp

  datatype Entry = Entry(inode: nat, action: Action, enqueuedAt: int, attempts: nat, state: State)

  type Table = map<nat, Entry>

  /** A row that EnqueueWriteback's DELETE statement removes before the INSERT. */
  predicate Superseded(e: Entry, inode: nat, action: Action) {
    action != Rename && e.inode == inode && e.action == action && e.state == Waiting
  }

  /** EnqueueWriteback on a writable mount. */
  function Enqueue(q: Table, freshId: nat, inode: nat, action: Action, now: int): Table {
    (map k | k in q && !Superseded(q[k], inode, action) :: q[k])
      [freshId := Entry(inode, action, now, 0, Waiting)]
  }

  /** DeleteWritebackByInode. */
  function DropInode(q: Table, inode: nat): Table {
    map k | k in q && q[k].inode != inode :: q[k]
  }

  /** DeleteFailedUploadWritebacks. */
  function DropFailedUploads(q: Table, inode: nat): Table {
    map k | k in q && !(q[k].inode == inode && q[k].action == Upload && q[k].state == GaveUp) :: q[k]
  }

  /** DeleteFailedWritebacks. */
  function DropFailed(q: Table): Table {
    map k | k in q && q[k].state != GaveUp :: q[k]
  }

  /** RequeueInProgress. */
  function RequeueInProgress(q: Table): Table {
    map k | k in q :: if q[k].state == InProgress then q[k].(state := Waiting) else q[k]
  }

  // ---------------------------------------------------------------- one waiting row per file and action

  /** Two rows of one file and action; every rename is kept, so renames are no twins. */
  predicate Twins(e: Entry, f: Entry) { e.inode == f.inode && e.action == f.action != Rename }

  ghost predicate UniqueWaiting(q: Table) {
    forall j, k :: j in q && k in q && j != k && q[j].state == q[k].state == Waiting ==> !Twins(q[j], q[k])
  }

  /** In after, the returned rows wait again; files, actions and the states of the others are as in before. */
  ghost predicate Returns(before: Table, after: Table, returned: set<nat>) {
    && before.Keys == after.Keys
    && (forall k :: k in before ==>
          && after[k].inode == before[k].inode && after[k].action == before[k].action
          && after[k].state == if k in returned then Waiting else before[k].state)
  }

  /** No returned row has a waiting twin, and no two returned rows are twins. */
  ghost predicate NoTwinReturns(q: Table, returned: set<nat>) {
    forall r, k :: r in returned && r in q && k in q && r != k && (k in returned || q[k].state == Waiting) ==>
      !Twins(q[r], q[k])
  }

  /** Queueing a change replaces the waiting row it doubles. */
  lemma {:induction false} EnqueueKeepsUnique(q: Table, freshId: nat, inode: nat, action: Action, now: int)
    requires UniqueWaiting(q)
    ensures UniqueWaiting(Enqueue(q, freshId, inode, action, now))
  {
  }

  /** Returning rows keeps waiting rows unique exactly when no returned row finds a twin. */
  lemma {:induction false} ReturnsKeepUnique(before: Table, after: Table, returned: set<nat>)
    requires Returns(before, after, returned)
    ensures UniqueWaiting(after) <==> UniqueWaiting(before) && NoTwinReturns(before, returned)
  {
    if UniqueWaiting(after) {
      forall j, k | j in before && k in before && j != k && before[j].state == before[k].state == Waiting
        ensures !Twins(before[j], before[k])
      {
        assert !Twins(after[j], after[k]);
      }
      forall r, k |
        r in returned && r in before && k in before && r != k && (k in returned || before[k].state == Waiting)
        ensures !Twins(before[r], before[k])
      {
        assert !Twins(after[r], after[k]);
      }
    }
  }

  /** A restart returns every claimed row. */
  lemma {:induction false} RestartKeepsUnique(q: Table)
    ensures UniqueWaiting(RequeueInProgress(q)) <==>
              UniqueWaiting(q) && NoTwinReturns(q, set k | k in q && q[k].state == InProgress)
  {
    ReturnsKeepUnique(q, RequeueInProgress(q), set k | k in q && q[k].state == InProgress);
  }
}
