/**
 The single-flight fetch of the scanner's key set (internal/e2ee/e2ee.go) and the epoch that a repin advances
 (internal/e2ee/tee_signing_pin.go).  Each critical section is one step; between the two sections of a fetch
 anything may happen.
 */
module EnclaveKeys {
  import opened Options

  const RECHECK_GAP: int := 30_000_000_000

  /** A probe: the epoch it started in, and once it is over the set its caller and its waiters get. */
  datatype Call = Call(epoch: nat, result: Option<Option<string>>)

  datatype Probe = Probe(keys: Option<string>, answered: bool, disabled: bool, refusal: Option<string>)

  datatype State = State(
    cached: Option<string>, source: nat, refusal: Option<string>, disabled: bool,
    epoch: nat, fetch: Option<nat>, calls: seq<Call>, staleCheckedAt: Option<int>)

  const START: State := State(None, 0, None, false, 0, None, [], None)

  datatype Entry = Hit(keys: string) | Join(call: nat) | Started(call: nat)

  // ---------------------------------------------------------------- steps

  predicate InFlight(s: State, c: nat) { c < |s.calls| && s.calls[c].result == None }

  /** What a waiter on call c reads: nothing while the probe runs. */
  function ResultOf(s: State, c: nat): Option<Option<string>> {
    if c < |s.calls| then s.calls[c].result else None
  }

  predicate IsCurrent(s: State, c: nat) { c < |s.calls| && s.calls[c].epoch == s.epoch }

  function Entered(s: State): Entry {
    if s.cached.Some? then Hit(s.cached.value)
    else if s.fetch.Some? then Join(s.fetch.value)
    else Started(|s.calls|)
  }

  /** The first critical section of FetchTeeEnclaveKeySet. */
  function Begin(s: State): State {
    if Entered(s).Started? then s.(fetch := Some(|s.calls|), calls := s.calls + [Call(s.epoch, None)]) else s
  }

  /** The second one, when the probe of call c is over. */
  function Finish(s: State, c: nat, p: Probe): State
    requires c < |s.calls|
  {
    var current := s.epoch == s.calls[c].epoch;
    s.(fetch := if s.fetch == Some(c) then None else s.fetch,
       refusal := if current then p.refusal else s.refusal,
       disabled := if current && p.answered then p.disabled else s.disabled,
       cached := if current && p.keys.Some? then p.keys else s.cached,
       source := if current && p.keys.Some? then c else s.source,
       calls := s.calls[c := s.calls[c].(result := Some(if current then p.keys else None))])
  }

  /** forgetTeeAttestationMemos, at the end of a repin. */
  function Forget(s: State): State { s.(cached := None, refusal := None, epoch := s.epoch + 1, fetch := None) }

  predicate Rechecks(s: State, now: int) { s.staleCheckedAt.None? || now - s.staleCheckedAt.value >= RECHECK_GAP }

  /** What the key a seal was made to is compared with: a new fetch, the cached set, a probe under way, or nothing. */
  datatype Compared = Refetched | CachedSet(keys: string) | ProbeOf(call: nat) | NoSet

  function Compares(s: State, now: int): Compared {
    if Rechecks(s, now) then Refetched
    else if s.cached.Some? then CachedSet(s.cached.value)
    else if s.fetch.Some? then ProbeOf(s.fetch.value)
    else NoSet
  }

  /** The critical section of TeeSealWentStale. */
  function StaleCheck(s: State, now: int): State {
    if Rechecks(s, now) then s.(staleCheckedAt := Some(now), cached := None) else s
  }

  /** The session's fields, updated by the four critical sections. */
  class Session {
    var cached: Option<string>
    ghost var source: nat
    var refusal: Option<string>
    var disabled: bool
    var epoch: nat
    var fetch: Option<nat>
    var calls: seq<Call>
    var staleCheckedAt: Option<int>

    ghost function View(): State
      reads this
    {
      State(cached, source, refusal, disabled, epoch, fetch, calls, staleCheckedAt)
    }

    constructor ()
      ensures View() == START
    {
      cached, source, refusal, disabled := None, 0, None, false;
      epoch, fetch, calls, staleCheckedAt := 0, None, [], None;
    }

    method BeginFetch() returns (entry: Entry)
      modifies this
      ensures View() == Begin(old(View())) && entry == Entered(old(View()))
    {
      if cached.Some? { return Hit(cached.value); }
      if fetch.Some? { return Join(fetch.value); }
      entry := Started(|calls|);
      fetch := Some(|calls|);
      calls := calls + [Call(epoch, None)];
    }

    method FinishFetch(c: nat, p: Probe) returns (found: Option<string>)
      requires c < |calls|
      modifies this
      ensures View() == Finish(old(View()), c, p) && Some(found) == calls[c].result
    {
      if fetch == Some(c) { fetch := None; }
      found := p.keys;
      if epoch == calls[c].epoch {
        refusal := p.refusal;
        if p.answered { disabled := p.disabled; }
        if found.Some? { cached, source := found, c; }
      } else {
        found := None;
      }
      calls := calls[c := calls[c].(result := Some(found))];
    }

    method ForgetMemos()
      modifies this
      ensures View() == Forget(old(View()))
    {
      cached, refusal := None, None;
      epoch := epoch + 1;
      fetch := None;
    }

    method CheckStale(now: int) returns (compared: Compared)
      modifies this
      ensures View() == StaleCheck(old(View()), now) && compared == Compares(old(View()), now)
    {
      if staleCheckedAt.Some? && now - staleCheckedAt.value < RECHECK_GAP {
        if cached.Some? { return CachedSet(cached.value); }
        return if fetch.Some? then ProbeOf(fetch.value) else NoSet;
      }
      staleCheckedAt, cached := Some(now), None;
      compared := Refetched;
    }
  }

  // ---------------------------------------------------------------- runs

  datatype Event = Fetch | Answer(call: nat, probe: Probe) | Repin | Stale(now: int)

  function Step(s: State, e: Event): State {
    match e
    case Fetch => Begin(s)
    case Answer(c, p) => if InFlight(s, c) then Finish(s, c, p) else s
    case Repin => Forget(s)
    case Stale(now) => StaleCheck(s, now)
  }

  function After(run: seq<Event>): State {
    if run == [] then START else Step(After(run[..|run| - 1]), run[|run| - 1])
  }

  ghost predicate Inv(s: State) {
    && (s.fetch.Some? ==> InFlight(s, s.fetch.value) && IsCurrent(s, s.fetch.value))
    && (forall c :: 0 <= c < |s.calls| ==> s.calls[c].epoch <= s.epoch)
    && (forall c: nat :: InFlight(s, c) && IsCurrent(s, c) ==> s.fetch == Some(c))
    && (s.cached.Some? ==> IsCurrent(s, s.source) && ResultOf(s, s.source) == Some(s.cached))
  }

  lemma {:induction false} StepKeeps(s: State, e: Event)
    requires Inv(s)
    ensures Inv(Step(s, e))
  {
  }

  /**
   In every run: at most one probe of the current epoch is in flight, and the cached set is what a probe of the
   current epoch found.
   */
  lemma {:induction false} OneProbe(run: seq<Event>)
    ensures Inv(After(run))
    ensures forall c: nat, d: nat | InFlight(After(run), c) && InFlight(After(run), d) ::
              IsCurrent(After(run), c) && IsCurrent(After(run), d) ==> c == d
  {
    if run != [] {
      OneProbe(run[..|run| - 1]);
      StepKeeps(After(run[..|run| - 1]), run[|run| - 1]);
    }
  }

  /** Later states know every call, with its epoch, and never change a result. */
  ghost predicate Extends(s: State, t: State) {
    && s.epoch <= t.epoch && |s.calls| <= |t.calls|
    && (forall c :: 0 <= c < |s.calls| ==>
          t.calls[c].epoch == s.calls[c].epoch && (s.calls[c].result.Some? ==> t.calls[c].result == s.calls[c].result))
  }

  lemma {:induction false} RunExtends(run: seq<Event>, i: nat, k: nat)
    requires i <= k <= |run|
    ensures Extends(After(run[..i]), After(run[..k]))
    decreases k
  {
    if i < k {
      RunExtends(run, i, k - 1);
      assert run[..k][..k - 1] == run[..k - 1];
    }
  }

  /**
   A probe overtaken by a repin: started by step i, repinned at j, answered at k.  From then on its result is nil,
   and that is what its caller and every waiter read, however late they wake up.
   */
  lemma {:induction false} OvertakenProbeYieldsNil(run: seq<Event>, i: nat, j: nat, k: nat, n: nat, c: nat)
    requires i < j < k < n <= |run|
    requires run[i] == Fetch && Entered(After(run[..i])) == Started(c)
    requires run[j] == Repin
    requires run[k].Answer? && run[k].call == c && InFlight(After(run[..k]), c)
    ensures ResultOf(After(run[..n]), c) == Some(None)
  {
    assert run[..i + 1][..i] == run[..i] && run[..j + 1][..j] == run[..j] && run[..k + 1][..k] == run[..k];
    var started := After(run[..i + 1]);
    assert started.calls[c].epoch == started.epoch;
    RunExtends(run, i + 1, j);
    RunExtends(run, j + 1, k);
    RunExtends(run, i + 1, k);
    RunExtends(run, k + 1, n);
    assert After(run[..k]).epoch > started.epoch;
    assert After(run[..k + 1]).calls[c].result == Some(None);
  }

  /** A result that is not nil was found by a probe no repin overtook. */
  lemma {:induction false} FoundSetIsCurrent(run: seq<Event>, k: nat, c: nat)
    requires k < |run| && run[k].Answer? && run[k].call == c && InFlight(After(run[..k]), c)
    ensures ResultOf(After(run[..k + 1]), c) == Some(if IsCurrent(After(run[..k]), c) then run[k].probe.keys else None)
    ensures ResultOf(After(run[..k + 1]), c) != Some(None) ==> After(run[..k + 1]).cached == run[k].probe.keys
  {
    assert run[..k + 1][..k] == run[..k];
  }

  /**
   In every run, a staleness check within the gap compares with a set that a probe of the current epoch found, or waits
   for the probe of the current epoch, if there is either.
   */
  lemma {:induction false} StaleComparesCurrent(run: seq<Event>, now: int)
    ensures var s := After(run);
            match Compares(s, now)
            case CachedSet(keys) => IsCurrent(s, s.source) && ResultOf(s, s.source) == Some(Some(keys))
            case ProbeOf(c) => InFlight(s, c) && IsCurrent(s, c)
            case NoSet => forall c: nat :: InFlight(s, c) ==> !IsCurrent(s, c)
            case Refetched => s.staleCheckedAt.Some? ==> now - s.staleCheckedAt.value >= RECHECK_GAP
  {
    OneProbe(run);
  }

  /** After any run a fetch uses the set there is, joins the probe of the current epoch, or starts one. */
  lemma {:induction false} FetchExactly(run: seq<Event>)
    ensures var s, s' := After(run), Step(After(run), Fetch);
            match Entered(s)
            case Hit(keys) => s.cached == Some(keys) && s' == s
            case Join(c) => s.cached == None && InFlight(s, c) && IsCurrent(s, c) && s' == s
            case Started(c) =>
              && s.cached == None && (forall d: nat :: InFlight(s, d) ==> !IsCurrent(s, d))
              && InFlight(s', c) && IsCurrent(s', c) && s'.fetch == Some(c) && !InFlight(s, c)
              && s'.cached == None && s'.epoch == s.epoch
  {
    OneProbe(run);
  }

  /**
   After any run an answer in its own epoch sets the refusal and, when the server answered, whether scanning is off;
   an answer that was overtaken sets neither, and leaves set, epoch and the probe under way.
   */
  lemma {:induction false} AnswerExactly(run: seq<Event>, c: nat, p: Probe)
    requires InFlight(After(run), c)
    ensures var s, s' := After(run), Step(After(run), Answer(c, p));
            && s'.epoch == s.epoch && !InFlight(s', c)
            && (forall d: nat :: d != c ==> ResultOf(s', d) == ResultOf(s, d))
            && if IsCurrent(s, c) then
                 && s'.refusal == p.refusal && s'.disabled == (if p.answered then p.disabled else s.disabled)
                 && (p.keys.Some? ==> s'.cached == p.keys) && (p.keys.None? ==> s'.cached == s.cached)
                 && s'.fetch == None
               else s'.refusal == s.refusal && s'.disabled == s.disabled && s'.cached == s.cached && s'.fetch == s.fetch
  {
    OneProbe(run);
  }

  /** After a repin nothing of the old epoch is used: no set, no refusal, and the next fetch starts a probe. */
  lemma {:induction false} RepinStartsAfresh(run: seq<Event>)
    ensures var s := Step(After(run), Repin);
            && s.cached == None && s.refusal == None && s.epoch == After(run).epoch + 1
            && (forall c: nat :: c < |s.calls| ==> !IsCurrent(s, c)) && Entered(s).Started?
  {
    OneProbe(run);
  }

  /** Between two checks that fetched anew, with none between them, lie at least thirty seconds. */
  lemma {:induction false} RechecksApart(run: seq<Event>, i: nat, k: nat, a: int, b: int)
    requires i < k < |run| && run[i] == Stale(a) && run[k] == Stale(b)
    requires Rechecks(After(run[..i]), a) && Rechecks(After(run[..k]), b)
    requires forall j :: i < j < k && run[j].Stale? ==> !Rechecks(After(run[..j]), run[j].now)
    ensures b - a >= RECHECK_GAP
  {
    LastRecheck(run, i, k, a);
  }

  lemma {:induction false} LastRecheck(run: seq<Event>, i: nat, k: nat, a: int)
    requires i < k <= |run| && run[i] == Stale(a) && Rechecks(After(run[..i]), a)
    requires forall j :: i < j < k && run[j].Stale? ==> !Rechecks(After(run[..j]), run[j].now)
    ensures After(run[..k]).staleCheckedAt == Some(a)
    decreases k
  {
    assert run[..k][..k - 1] == run[..k - 1];
    if k > i + 1 { LastRecheck(run, i, k - 1, a); }
  }
}
