/**
 One row of the mount cache's inode table and the SQL statements that update it
 (internal/mount/cache/db.go, internal/mount/cache/local_content.go).  Every statement is a function
 from the old row to the new one; the empty string is the SQL default of the text columns.
 */
module CacheRow {
  import opened Options

  datatype Status = Synced | Pending | Rejected | Failed | Conflict | Offline

  datatype Row = Row(
    id: nat, path: string, size: nat,
    cached: bool, dirty: bool, pinned: bool, lastAccess: int,
    contentHash: string, localHash: string, downloadBaseline: string,
    etag: string, localEtag: string,
    status: Status)

  /** The columns a caller of UpsertInode supplies. */
  datatype Inode = Inode(
    path: string, size: nat, cached: bool, dirty: bool,
    contentHash: string, localHash: string, etag: string, status: Status)

  /** The baseline column of LocalContentState: local_hash, else download_baseline_hash. */
  function Baseline(r: Row): string {
    if r.localHash != "" then r.localHash else r.downloadBaseline
  }

  function Coalesce(preferred: string, fallback: string): string {
    if preferred != "" then preferred else fallback
  }

  /** INSERT ... ON CONFLICT(remote_path) DO UPDATE. */
  function Upsert(existing: Option<Row>, freshId: nat, inode: Inode): Row {
    match existing
    case None =>
      Row(freshId, inode.path, inode.size, inode.cached, inode.dirty, false, 0,
          inode.contentHash, inode.localHash, "", inode.etag, "", inode.status)
    case Some(r) =>
      r.(size := inode.size, cached := inode.cached, dirty := r.dirty || inode.dirty,
         contentHash := inode.contentHash,
         localHash := Coalesce(inode.localHash, r.localHash),
         etag := Coalesce(inode.etag, r.etag),
         status := inode.status)
  }

  function MarkDirty(r: Row): Row { r.(dirty := true, status := Pending) }

  function MarkSynced(r: Row, etag: string): Row { r.(dirty := false, status := Synced, etag := etag) }

  function MarkCached(r: Row, hash: string, now: int): Row {
    r.(cached := true, contentHash := hash, lastAccess := now)
  }

  function SetSize(r: Row, size: nat): Row { r.(size := size) }

  function SetLocalContent(r: Row, hash: string): Row {
    r.(localHash := hash, downloadBaseline := hash, localEtag := if hash == "" then "" else r.etag)
  }

  function SetLocalContentForVersion(r: Row, hash: string, etag: string): Row {
    r.(localHash := hash, downloadBaseline := hash, localEtag := etag)
  }

  function InvalidateCache(r: Row): Row {
    r.(downloadBaseline := Baseline(r), cached := false, contentHash := "", localHash := "")
  }

  function SetSyncStatus(r: Row, status: Status): Row { r.(status := status) }

  function MarkLocalConflict(r: Row): Row { r.(dirty := true, cached := false, status := Conflict) }

  function SetRemoteVersion(r: Row, etag: string): Row { r.(etag := etag) }

  /**
   Invalidating a row keeps its baseline and its pending-edit flag, and so does rebuilding it from a
   listing.  An upsert moves the baseline exactly when its caller supplies another digest.
   */
  lemma {:induction false} InvalidateAndUpsertKeepBaseline(r: Row, freshId: nat, inode: Inode)
    ensures Baseline(InvalidateCache(r)) == Baseline(r)
    ensures InvalidateCache(r).dirty == r.dirty
    ensures InvalidateCache(InvalidateCache(r)) == InvalidateCache(r)
    ensures var u := Upsert(Some(r), freshId, inode);
            && u.id == r.id
            && (r.dirty ==> u.dirty)
            && (Baseline(u) == Baseline(r) <==> inode.localHash == "" || inode.localHash == Baseline(r))
  {}
}
