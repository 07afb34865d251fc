/** A remote change arrives: poll, walk, fetch, publication and commit, with nobody in between. */
module SyncConvergence {
  import opened Options
  import opened CacheRow
  import opened SyncState
  import opened SyncActors
  import opened SyncSafety
  import opened SyncProgress

  /** Node n and the row are clean, and the file, if there is one, is what the baseline says. */
  ghost predicate InStep(h: Digest, s: Sys, n: nat) {
    && n in s.nodes && !s.nodes[n].dirty
    && s.row.Some? && s.row.value.id == s.nodes[n].id && !s.row.value.dirty
    && (s.disk.Some? ==> Baseline(s.row.value) != "" && h(s.disk.value.content) == Baseline(s.row.value))
  }

  lemma {:induction false} ExecManyKeeps(h: Digest, s: Sys, t: nat, n: nat)
    requires Inv(h, s)
    ensures Inv(h, ExecMany(s, t, n))
    decreases n
  {
    if n > 0 {
      ExecKeeps(h, s, t);
      ExecManyKeeps(h, ExecThread(s, t), t, n - 1);
    }
  }

  /** The poller's turn. */
  function Polled(h: Digest, s: Sys, n: nat, t: nat, etag: string, drifted: bool, size: Option<nat>): Sys
    requires n in s.nodes
  {
    ExecMany(StartThread(h, s, t, Seen(s.row, s.disk, s.nodes[n]), PollEntry(n, etag, drifted, size)), t, 4)
  }

  /** After a poll that saw a new version: the row uncached with its baseline, the node with the version. */
  ghost predicate Outdated(h: Digest, s: Sys, s': Sys, n: nat, etag: string) {
    && InStep(h, s', n) && s'.disk == s.disk && s'.held == s.held
    && s'.nodes[n].etag == etag && !s'.nodes[n].cached
    && s'.row.value.etag == etag && s'.row.value.localHash == "" && s'.row.value in s'.rowLog
  }

  lemma {:induction false} PollStage(h: Digest, s: Sys, n: nat, t: nat, etag: string, drifted: bool, size: Option<nat>)
    requires Inv(h, s) && InStep(h, s, n) && t !in s.threads && RemoteChanged(s.nodes[n], etag, drifted)
    ensures Outdated(h, s, Polled(h, s, n, t, etag, drifted, size), n, etag)
    ensures Polled(h, s, n, t, etag, drifted, size).threads.Keys == s.threads.Keys + {t}
  {
    PollView(h, s, n, t, etag, drifted, size);
    PolledInv(h, s, n, t, etag, drifted, size);
    ViewOutdated(h, s, Polled(h, s, n, t, etag, drifted, size), n, t, etag, size);
  }

  /** What the poll leaves, in the fields statements act on. */
  function PolledView(s: Sys, n: nat, t: nat, etag: string, size: Option<nat>): View
    requires n in s.nodes && s.row.Some?
  {
    View(AsideOf(s),
         CoreOf(s).(row := Some(PolledRow(s.row.value, s.nodes[n], etag, true)),
                    nodes := s.nodes[n := PolledNode(s.row.value, s.nodes[n], etag, true, size)]),
         s.threads[t := Script([], 0, Finish)])
  }

  lemma {:induction false} PollView(h: Digest, s: Sys, n: nat, t: nat, etag: string, drifted: bool, size: Option<nat>)
    requires Inv(h, s) && InStep(h, s, n) && t !in s.threads && RemoteChanged(s.nodes[n], etag, drifted)
    ensures ViewOf(Polled(h, s, n, t, etag, drifted, size)) == PolledView(s, n, t, etag, size)
  {
    var ops := PlanPollEntry(Seen(s.row, s.disk, s.nodes[n]), n, etag, drifted, size).ops;
    PollStarts(h, s, n, t, etag, drifted, size);
    var started := SetThread(s, t, Script(ops, 0, Finish));
    ScriptRuns(started, t, ops, Finish);
    PollMerges(CoreOf(s), s.readOnly, s.row.value, s.disk, n, etag, drifted, size);
    UpdatedTwice(s.threads, t, Script(ops, 0, Finish), Script([], 0, Finish));
  }

  lemma {:induction false} PolledInv(h: Digest, s: Sys, n: nat, t: nat, etag: string, drifted: bool, size: Option<nat>)
    requires Inv(h, s) && n in s.nodes
    ensures Inv(h, Polled(h, s, n, t, etag, drifted, size))
  {
    var seen, task := Seen(s.row, s.disk, s.nodes[n]), PollEntry(n, etag, drifted, size);
    StartKeeps(h, s, t, seen, task);
    ExecManyKeeps(h, StartThread(h, s, t, seen, task), t, 4);
  }

  lemma {:induction false} ViewOutdated(h: Digest, s: Sys, s': Sys, n: nat, t: nat, etag: string, size: Option<nat>)
    requires InStep(h, s, n) && Inv(h, s') && ViewOf(s') == PolledView(s, n, t, etag, size)
    ensures Outdated(h, s, s', n, etag) && s'.threads.Keys == s.threads.Keys + {t}
  {
    assert AsideOf(s') == AsideOf(s);
    assert CoreOf(s').row == s'.row && CoreOf(s').nodes == s'.nodes;
  }

  lemma {:induction false} PollStarts(h: Digest, s: Sys, n: nat, t: nat, etag: string, drifted: bool, size: Option<nat>)
    requires Inv(h, s) && InStep(h, s, n) && t !in s.threads && RemoteChanged(s.nodes[n], etag, drifted)
    ensures var seen := Seen(s.row, s.disk, s.nodes[n]);
            var ops := PlanPollEntry(seen, n, etag, drifted, size).ops;
            && |ops| == 4 && (forall op :: op in ops ==> Plain(op))
            && StartThread(h, s, t, seen, PollEntry(n, etag, drifted, size)) == SetThread(s, t, Script(ops, 0, Finish))
  {
  }

  /** The walk then downloads, from a snapshot of the file as it is. */
  lemma {:induction false} WalkStage(h: Digest, s: Sys, n: nat, u: nat, valid: bool)
    requires InStep(h, s, n) && !s.nodes[n].cached && s.row.value.localHash == "" && s.row.value in s.rowLog
    requires u !in s.threads
    ensures var before := if s.disk.Some? then Some(Snap(h, s.disk.value)) else None;
            StartThread(h, s, u, Seen(s.row, s.disk, s.nodes[n]), Walk(n, false, true, valid))
            == SetThread(s, u, Fetching(n, s.nodes[n].etag, before))
  {
  }

  /** The walk's turn up to the end of the download. */
  function Walked(h: Digest, s: Sys, n: nat, u: nat, valid: bool, body: Content, ident: nat, mtime: int): Sys
    requires n in s.nodes
  {
    var walking := StartThread(h, s, u, Seen(s.row, s.disk, s.nodes[n]), Walk(n, false, true, valid));
    var fetched := Perform(h, walking, Fetch(u, body));
    if u in fetched.threads && fetched.threads[u].Fetched? then Downloaded(h, fetched, u, ident, mtime) else fetched
  }

  lemma {:induction false} FetchStage(h: Digest, s: Sys, n: nat, u: nat, valid: bool, body: Content, ident: nat,
                                      mtime: int)
    requires InStep(h, s, n) && !s.nodes[n].cached && s.row.value.localHash == "" && s.row.value in s.rowLog
    requires u !in s.threads && body in s.held
    ensures var s' := Walked(h, s, n, u, valid, body, ident, mtime);
            && s'.disk == Some(LocalFile(body, ident, mtime))
            && s'.row == Some(Committed(s.row.value, |body|, h(body), s.nodes[n].etag))
            && s'.nodes == s.nodes[n := s.nodes[n].(cached := true, size := |body|)]
  {
    WalkStage(h, s, n, u, valid);
    var before := if s.disk.Some? then Some(Snap(h, s.disk.value)) else None;
    var walking := SetThread(s, u, Fetching(n, s.nodes[n].etag, before));
    FetchArrives(h, s, walking, n, u, before, body);
    DownloadCompletes(h, Perform(h, walking, Fetch(u, body)), u, ident, mtime);
  }

  lemma {:induction false} FetchArrives(h: Digest, s: Sys, walking: Sys, n: nat, u: nat, before: Option<Snapshot>,
                                        body: Content)
    requires InStep(h, s, n) && body in s.held && before == (if s.disk.Some? then Some(Snap(h, s.disk.value)) else None)
    requires walking == SetThread(s, u, Fetching(n, s.nodes[n].etag, before))
    ensures var fetched := Perform(h, walking, Fetch(u, body));
            && Undisturbed(h, fetched, u) && fetched.threads[u] == Fetched(n, s.nodes[n].etag, before, body)
            && fetched.row == s.row && fetched.nodes == s.nodes
  {
  }

  /** The poll and the walk are a run of the machine. */
  lemma {:induction false} ChangeIsRun(h: Digest, s: Sys, polled: Sys, n: nat, t: nat, u: nat, etag: string,
                                       drifted: bool, size: Option<nat>, valid: bool, body: Content, ident: nat,
                                       mtime: int)
    requires n in s.nodes && polled == Polled(h, s, n, t, etag, drifted, size) && n in polled.nodes
    ensures Reaches(h, s, Walked(h, polled, n, u, valid, body, ident, mtime))
  {
    var poll := Start(t, Seen(s.row, s.disk, s.nodes[n]), PollEntry(n, etag, drifted, size));
    ReachesItself(h, s);
    OneMore(h, s, s, poll);
    ManyMore(h, s, Perform(h, s, poll), t, 4);
    var walk := Start(u, Seen(polled.row, polled.disk, polled.nodes[n]), Walk(n, false, true, valid));
    OneMore(h, s, polled, walk);
    OneMore(h, s, Perform(h, polled, walk), Fetch(u, body));
    var fetched := Perform(h, Perform(h, polled, walk), Fetch(u, body));
    if u in fetched.threads && fetched.threads[u].Fetched? { DownloadIsRun(h, s, fetched, u, ident, mtime); }
  }

  /**
   From a state in step, a poll that sees another version, and the walk that follows, end with the served bytes in the
   file, and a clean, cached, synced row and a node that carry their digest and version: in step again.  They are a run
   of the machine.
   */
  lemma {:induction false} RemoteChangeArrives(h: Digest, s: Sys, n: nat, t: nat, u: nat, etag: string, drifted: bool,
                                               size: Option<nat>, valid: bool, body: Content, ident: nat, mtime: int)
    requires Inv(h, s) && InStep(h, s, n) && t !in s.threads && u !in s.threads && t != u && body in s.held
    requires RemoteChanged(s.nodes[n], etag, drifted) && h(body) != ""
    ensures var polled := Polled(h, s, n, t, etag, drifted, size);
            n in polled.nodes
            && var s' := Walked(h, polled, n, u, valid, body, ident, mtime);
               && Reaches(h, s, s') && InStep(h, s', n) && s'.disk == Some(LocalFile(body, ident, mtime))
               && var r := s'.row.value;
                  && r.cached && r.status == Synced && r.localHash == h(body)
                  && r.etag == etag && r.localEtag == etag && s'.nodes[n].etag == etag && s'.nodes[n].cached
  {
    PollStage(h, s, n, t, etag, drifted, size);
    var polled := Polled(h, s, n, t, etag, drifted, size);
    FetchStage(h, polled, n, u, valid, body, ident, mtime);
    ChangeIsRun(h, s, polled, n, t, u, etag, drifted, size, valid, body, ident, mtime);
  }
}
