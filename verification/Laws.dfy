/** Parameters that satisfy the laws assumed of ciphers, digests and MACs, so that no theorem about them is empty. */
module Laws {
  import opened Machine
  import opened Options
  import opened Records
  import BlobFormat
  import BlobStore
  import FileCrypto
  import PeerPins
  import SyncState
  import SyncSafety

  const TAG: Bytes := [0, 0, 0, 0, 0, 0, 0, 0, 0, 0, 0, 0, 0, 0, 0, 0]

  function Bare(plain: Bytes): Bytes { plain + TAG }

  function Strip(sealed: Bytes): Option<Bytes> {
    if |sealed| < OVERHEAD then None else Some(sealed[..|sealed| - OVERHEAD])
  }

  lemma {:induction false} StripBare(plain: Bytes)
    ensures |Bare(plain)| == |plain| + OVERHEAD && Strip(Bare(plain)) == Some(plain)
  {
    assert (plain + TAG)[..|plain|] == plain;
  }

  /** A letter per byte, from '@' on. */
  function Letter(b: byte): char { (b + 64) as char }

  function Text(b: Bytes): string { seq(|b|, i requires 0 <= i < |b| => Letter(b[i])) }

  lemma {:induction false} TextInjective(a: Bytes, b: Bytes)
    ensures Text(a) == Text(b) ==> a == b
    ensures '"' !in Text(a)
  {
    if Text(a) == Text(b) {
      assert |a| == |Text(a)| == |Text(b)| == |b|;
      forall i | 0 <= i < |a| ensures a[i] == b[i] { assert Text(a)[i] == Text(b)[i]; }
    }
    forall i | 0 <= i < |Text(a)| ensures Text(a)[i] != '"' {}
  }

  function Named(b: Bytes): string { "d" + Text(b) }

  lemma {:induction false} NamedInjective(a: Bytes, b: Bytes)
    ensures Named(a) == Named(b) ==> a == b
    ensures '"' !in Named(a) && Named(a) != ""
  {
    TextInjective(a, b);
    assert Named(a)[1..] == Text(a) && Named(b)[1..] == Text(b);
  }

  /** The laws of the blob store. */
  lemma {:induction false} StoreLawsHold()
    ensures exists c: BlobFormat.Cipher :: c.Lawful()
    ensures exists digest: Bytes -> string :: BlobStore.Injective(digest)
  {
    var c := BlobFormat.Cipher((n, p, a) => Bare(p), (n, s, a) => Strip(s));
    forall n: Nonce, p: Bytes, a: BlobFormat.Binding
      ensures |c.seal(n, p, a)| == |p| + OVERHEAD && c.open(n, c.seal(n, p, a), a) == Some(p)
    {
      StripBare(p);
    }
    assert c.Lawful();
    var digest := (b: Bytes) => Named(b);
    forall a, b | digest(a) == digest(b) ensures a == b { NamedInjective(a, b); }
    assert BlobStore.Injective(digest);
  }

  /** The laws of file encryption, the ideal ones included. */
  lemma {:induction false} SuiteLawsHold()
    ensures exists s: FileCrypto.Suite :: s.Lawful() && s.Ideal()
  {
    var s := FileCrypto.Suite((n, p, a) => Bare(p), (n, c, a) => Strip(c), b => Named(b), t => "m" + t, b => Text(b));
    forall n: Nonce, p: Bytes, a: Bytes
      ensures |s.seal(n, p, a)| == |p| + OVERHEAD && s.open(n, s.seal(n, p, a), a) == Some(p)
    {
      StripBare(p);
    }
    assert s.Lawful();
    forall a, b ensures s.digest(a) == s.digest(b) ==> a == b { NamedInjective(a, b); }
    forall x, y | s.mac(x) == s.mac(y) ensures x == y { assert s.mac(x)[1..] == x && s.mac(y)[1..] == y; }
    forall a, b ensures s.base64(a) == s.base64(b) ==> a == b { TextInjective(a, b); }
    forall a ensures '"' !in s.digest(a) && s.digest(a) != "" { NamedInjective(a, a); }
    forall a ensures '"' !in s.base64(a) { TextInjective(a, a); }
    assert s.Ideal();
  }

  /** The law of the sync machine's digest. */
  lemma {:induction false} DigestLawHolds()
    ensures exists h: SyncState.Digest :: SyncSafety.IdealDigest(h)
  {
    var h: SyncState.Digest := c => Named(c);
    forall a, b ensures h(a) == h(b) ==> a == b { NamedInjective(a, b); }
    forall a ensures h(a) != "" { NamedInjective(a, a); }
    assert SyncSafety.IdealDigest(h);
  }

  /** The laws of the seal pins. */
  lemma {:induction false} PinLawsHold()
    ensures exists c: PeerPins.Scheme :: c.Ideal() && c.Visible()
  {
    var c := PeerPins.Scheme(b => b, b => Named(b), (x, k, e, m, s) => true);
    forall a, b ensures c.base64(a) == c.base64(b) ==> a == b { NamedInjective(a, b); }
    assert c.Ideal() && c.Visible();
  }
}
