/** Trust on first use of a peer's sealing key (internal/e2ee/peer_seal_pin.go), one call after the other. */
module PeerPins {
  import opened Machine
  import opened Options

  const X25519_SIZE: nat := 32
  const KYBER_SIZE: nat := 1184
  const ED25519_SIZE: nat := 32
  const MLDSA_SIZE: nat := 1312

  /**
   The primitives: a digest, its text form, and the check of a bundle's signature over a sealing pair and a signing
   pair under that signing pair.
   */
  datatype Scheme = Scheme(
    digest: Bytes -> Bytes,
    base64: Bytes -> string,
    verify: (Bytes, Bytes, Bytes, Bytes, Bytes) -> bool)
  {
    ghost predicate Ideal() {
      && (forall a, b :: digest(a) == digest(b) ==> a == b)
      && (forall a, b :: base64(a) == base64(b) ==> a == b)
    }

    /** A fingerprint is never the empty string. */
    ghost predicate Visible() { forall x, y :: Fingerprint(x, y) != "" }

    /** sealKeyFingerprint. */
    function Fingerprint(x25519: Bytes, kyber: Bytes): string { base64(digest(x25519 + kyber)) }
  }

  /** A served key set. */
  datatype Bundle = Bundle(x25519: Bytes, kyber: Bytes, ed: Bytes, ml: Bytes, sig: Bytes) {
    predicate Usable() { |x25519| == X25519_SIZE && |kyber| == KYBER_SIZE }

    predicate Signing() { |ed| == ED25519_SIZE && |ml| == MLDSA_SIZE }

    /** bundleSelfSigned: the signature is checked under the bundle's own signing pair. */
    predicate SelfSigned(c: Scheme) { Usable() && Signing() && sig != [] && c.verify(x25519, kyber, ed, ml, sig) }

    /** The record a pin takes: the fingerprint, and the signing pair in text or nothing. */
    function Taken(c: Scheme): Pin {
      Pin(c.Fingerprint(x25519, kyber), if Signing() then c.base64(ed) else "", if Signing() then c.base64(ml) else "")
    }
  }

  /** The fingerprint of a sealing key, and the signing keys it was taken under. */
  datatype Pin = Pin(fp: string, ed: string, ml: string)

  predicate Anchored(p: Pin) { p.ed != "" && p.ml != "" }

  predicate SameAnchors(p: Pin, q: Pin) { p.ed == q.ed && p.ml == q.ml }

  /** sealRotationAttributable. */
  predicate Attributable(c: Scheme, p: Pin, b: Bundle) {
    Anchored(p) && SameAnchors(p, b.Taken(c)) && b.SelfSigned(c)
  }

  type Pins = map<string, Pin>

  /** A call, with what the store does: whether it can be read and whether it takes a write. */
  datatype Op =
    | PinOp(peer: string, bundle: Bundle, readable: bool, writable: bool)
    | RepinOp(peer: string, bundle: Bundle, readable: bool, writable: bool)

  /** A record without fingerprint counts as none. */
  function Lookup(pins: Pins, peer: string): Option<Pin> {
    if peer in pins && pins[peer].fp != "" then Some(pins[peer]) else None
  }

  /** Whether the call succeeds. */
  predicate Succeeds(c: Scheme, nameable: string -> bool, pins: Pins, op: Op) {
    var fp := op.bundle.Taken(c).fp;
    && nameable(op.peer) && op.bundle.Usable() && op.readable
    && match Lookup(pins, op.peer)
       case None => op.writable
       case Some(p) =>
         if op.PinOp? then p.fp == fp || (Attributable(c, p, op.bundle) && op.writable) else p.fp != fp && op.writable
  }

  function Apply(c: Scheme, nameable: string -> bool, pins: Pins, op: Op): Pins {
    if !Succeeds(c, nameable, pins, op) then pins
    else
      match Lookup(pins, op.peer)
      case Some(p) => if p.fp == op.bundle.Taken(c).fp then pins else pins[op.peer := op.bundle.Taken(c)]
      case None => pins[op.peer := op.bundle.Taken(c)]
  }

  class PinStore {
    const scheme: Scheme
    const nameable: string -> bool
    var pins: Pins

    constructor (scheme: Scheme, nameable: string -> bool)
      ensures pins == map[] && this.scheme == scheme && this.nameable == nameable
    {
      this.scheme, this.nameable, pins := scheme, nameable, map[];
    }

    /** PinPeerSealKey. */
    method PinPeerSealKey(peer: string, b: Bundle, readable: bool, writable: bool) returns (ok: bool)
      modifies this
      ensures ok == Succeeds(scheme, nameable, old(pins), PinOp(peer, b, readable, writable))
      ensures pins == Apply(scheme, nameable, old(pins), PinOp(peer, b, readable, writable))
    {
      if !nameable(peer) || !b.Usable() || !readable { return false; }
      var have := peer in pins && pins[peer].fp != "";
      if have && pins[peer].fp == scheme.Fingerprint(b.x25519, b.kyber) { return true; }
      if have && !Attributable(scheme, pins[peer], b) { return false; }
      if !writable { return false; }
      pins := pins[peer := b.Taken(scheme)];
      ok := true;
    }

    /** RepinPeerSealKey: the user's own decision. */
    method RepinPeerSealKey(peer: string, b: Bundle, readable: bool, writable: bool) returns (ok: bool)
      modifies this
      ensures ok == Succeeds(scheme, nameable, old(pins), RepinOp(peer, b, readable, writable))
      ensures pins == Apply(scheme, nameable, old(pins), RepinOp(peer, b, readable, writable))
    {
      if !nameable(peer) || !b.Usable() || !readable { return false; }
      if peer in pins && pins[peer].fp != "" && pins[peer].fp == scheme.Fingerprint(b.x25519, b.kyber) { return false; }
      if !writable { return false; }
      pins := pins[peer := b.Taken(scheme)];
      ok := true;
    }
  }

  // ---------------------------------------------------------------- one call

  /** Success leaves the offered fingerprint pinned, refusal leaves the store, and no call touches another peer. */
  lemma {:induction false} CallEffect(c: Scheme, nameable: string -> bool, pins: Pins, op: Op)
    ensures var now := Apply(c, nameable, pins, op);
            && (Succeeds(c, nameable, pins, op) ==> op.peer in now && now[op.peer].fp == op.bundle.Taken(c).fp)
            && (!Succeeds(c, nameable, pins, op) ==> now == pins)
            && (forall q :: q != op.peer ==> Lookup(now, q) == Lookup(pins, q))
            && (forall q :: q in pins ==> q in now)
  {
  }

  /** The set is signed by the pair a pin was taken under. */
  predicate SignedUnder(c: Scheme, p: Pin, b: Bundle) {
    && |b.ed| == ED25519_SIZE && |b.ml| == MLDSA_SIZE && p.ed == c.base64(b.ed) != "" && p.ml == c.base64(b.ml) != ""
    && b.sig != [] && c.verify(b.x25519, b.kyber, b.ed, b.ml, b.sig)
  }

  /**
   When a call succeeds.  Pinning: at first use, when the set is the pinned one, and when it is signed under the pin's
   anchors.  Repinning: when it is not the pinned one.  Everything else is refused, as is a call for a name, a set or a
   store that will not do.
   */
  lemma {:induction false} SucceedsExactly(c: Scheme, nameable: string -> bool, pins: Pins, op: Op)
    ensures var b := op.bundle;
            var first, same := Lookup(pins, op.peer).None?,
                                op.peer in pins && pins[op.peer].fp == c.Fingerprint(b.x25519, b.kyber);
            Succeeds(c, nameable, pins, op) <==>
              && nameable(op.peer) && |b.x25519| == 32 && |b.kyber| == 1184 && op.readable
              && (op.writable || (op.PinOp? && !first && same))
              && (if op.PinOp? then first || same || SignedUnder(c, pins[op.peer], b) else first || !same)
  {
  }

  /** First use takes the fingerprint and, when both have their sizes, the signing pair. */
  lemma {:induction false} FirstUseTakes(c: Scheme, nameable: string -> bool, pins: Pins, peer: string, b: Bundle)
    requires Lookup(pins, peer).None? && nameable(peer) && b.Usable()
    ensures var now := Apply(c, nameable, pins, PinOp(peer, b, true, true));
            && peer in now && now[peer].fp == c.Fingerprint(b.x25519, b.kyber)
            && (if |b.ed| == ED25519_SIZE && |b.ml| == MLDSA_SIZE
                then now[peer].ed == c.base64(b.ed) && now[peer].ml == c.base64(b.ml) else !Anchored(now[peer]))
            && forall q :: q != peer ==> (q in now <==> q in pins) && (q in pins ==> now[q] == pins[q])
  {
  }

  // ---------------------------------------------------------------- runs

  /** The pins after a run of calls. */
  function Run(c: Scheme, nameable: string -> bool, pins: Pins, ops: seq<Op>): Pins {
    if ops == [] then pins else Apply(c, nameable, Run(c, nameable, pins, ops[..|ops| - 1]), ops[|ops| - 1])
  }

  /** The user never repinned this peer during the run. */
  predicate NoRepin(ops: seq<Op>, peer: string) {
    forall i :: 0 <= i < |ops| ==> ops[i].peer == peer ==> ops[i].PinOp?
  }

  /** Call i offered the peer a bundle of that fingerprint whose signature verifies under the anchors of p. */
  ghost predicate MovedBy(c: Scheme, ops: seq<Op>, i: nat, peer: string, p: Pin, fp: string) {
    && i < |ops| && ops[i].PinOp? && ops[i].peer == peer
    && var b := ops[i].bundle;
       && b.Usable() && c.Fingerprint(b.x25519, b.kyber) == fp
       && c.base64(b.ed) == p.ed && c.base64(b.ml) == p.ml
       && c.verify(b.x25519, b.kyber, b.ed, b.ml, b.sig)
  }

  /**
   Between repins a pinned peer keeps its anchors, and its fingerprint is the one pinned first or that of a key set
   whose signature verifies under those anchors.  A pin without anchors never moves.
   */
  lemma {:induction false} AnchorsHold(c: Scheme, nameable: string -> bool, pins: Pins, ops: seq<Op>, peer: string)
    requires Lookup(pins, peer).Some? && NoRepin(ops, peer) && c.Visible()
    ensures var now := Run(c, nameable, pins, ops);
            && Lookup(now, peer).Some? && SameAnchors(now[peer], pins[peer])
            && (now[peer].fp == pins[peer].fp || exists i: nat :: MovedBy(c, ops, i, peer, pins[peer], now[peer].fp))
            && (!Anchored(pins[peer]) ==> now[peer] == pins[peer])
  {
    if ops != [] {
      var n := |ops| - 1;
      AnchorsHold(c, nameable, pins, ops[..n], peer);
      var was, now := Run(c, nameable, pins, ops[..n]), Run(c, nameable, pins, ops);
      CallEffect(c, nameable, was, ops[n]);
      if now[peer] != was[peer] {
        assert MovedBy(c, ops, n, peer, pins[peer], now[peer].fp);
      } else if now[peer].fp != pins[peer].fp {
        var i: nat :| MovedBy(c, ops[..n], i, peer, pins[peer], now[peer].fp);
        assert MovedBy(c, ops, i, peer, pins[peer], now[peer].fp);
      }
    }
  }

  /**
   However often the peer rotated: after any run without a repin, a key set passes exactly when it is the pinned one or
   is signed under the anchors of the first pin.
   */
  lemma {:induction false} RotationExactly(c: Scheme, nameable: string -> bool, pins: Pins, ops: seq<Op>, peer: string,
                                           b: Bundle)
    requires Lookup(pins, peer).Some? && NoRepin(ops, peer) && c.Visible() && nameable(peer) && b.Usable()
    ensures var now := Run(c, nameable, pins, ops);
            && peer in now
            && (Succeeds(c, nameable, now, PinOp(peer, b, true, true)) <==>
                  now[peer].fp == c.Fingerprint(b.x25519, b.kyber) || SignedUnder(c, pins[peer], b))
  {
    AnchorsHold(c, nameable, pins, ops, peer);
    SucceedsExactly(c, nameable, Run(c, nameable, pins, ops), PinOp(peer, b, true, true));
  }

  /**
   Hence the key set itself: whatever sealing pair has the fingerprint that is now pinned in place of the first one
   is signed by the owner of the signing pair the first pin was taken under.
   */
  lemma {:induction false} PinnedKeysAreSigned(c: Scheme, nameable: string -> bool, pins: Pins, ops: seq<Op>,
                                               peer: string,
                                               x25519: Bytes, kyber: Bytes, ed: Bytes, ml: Bytes)
    requires c.Ideal() && c.Visible()
    requires Lookup(pins, peer).Some? && NoRepin(ops, peer)
    requires c.base64(ed) == pins[peer].ed && c.base64(ml) == pins[peer].ml
    requires |x25519| == X25519_SIZE
    ensures var now := Run(c, nameable, pins, ops);
            peer in now && now[peer].fp == c.Fingerprint(x25519, kyber) != pins[peer].fp ==>
              exists sig :: c.verify(x25519, kyber, ed, ml, sig)
  {
    AnchorsHold(c, nameable, pins, ops, peer);
    var now := Run(c, nameable, pins, ops);
    if now[peer].fp == c.Fingerprint(x25519, kyber) != pins[peer].fp {
      var i: nat :| MovedBy(c, ops, i, peer, pins[peer], now[peer].fp);
      var b := ops[i].bundle;
      assert c.digest(b.x25519 + b.kyber) == c.digest(x25519 + kyber);
      SamePair(b.x25519, b.kyber, x25519, kyber);
      assert b.ed == ed && b.ml == ml;
      assert c.verify(x25519, kyber, ed, ml, b.sig);
    }
  }

  lemma {:induction false} SamePair(a: Bytes, b: Bytes, x: Bytes, y: Bytes)
    requires |a| == |x| && a + b == x + y
    ensures a == x && b == y
  {
    assert a == (a + b)[..|a|] && x == (x + y)[..|x|];
    assert b == (a + b)[|a|..] && y == (x + y)[|x|..];
  }

  /** Whatever a run pinned for a peer was offered to it by some call, under the anchors it now has. */
  lemma {:induction false} PinsWereOffered(c: Scheme, nameable: string -> bool, ops: seq<Op>, peer: string)
    requires peer in Run(c, nameable, map[], ops)
    ensures exists i: nat :: i < |ops| && ops[i].peer == peer && ops[i].bundle.Usable() && nameable(peer)
                             && Run(c, nameable, map[], ops)[peer] == ops[i].bundle.Taken(c)
  {
    var n := |ops| - 1;
    var was, now := Run(c, nameable, map[], ops[..n]), Run(c, nameable, map[], ops);
    CallEffect(c, nameable, was, ops[n]);
    if peer in was && now[peer] == was[peer] {
      PinsWereOffered(c, nameable, ops[..n], peer);
      var i: nat :| i < n && ops[..n][i].peer == peer && ops[..n][i].bundle.Usable() && nameable(peer)
                    && was[peer] == ops[..n][i].bundle.Taken(c);
      assert ops[i] == ops[..n][i];
    } else {
      assert ops[n].peer == peer && now[peer] == ops[n].bundle.Taken(c);
    }
  }
}
