/** The chunked file encryption of internal/crypto: encrypt.go and decrypt.go. */
module FileCrypto {
  import opened Machine
  import opened Options
  import opened Records

  const MAX_CHUNK_LEN: nat := CHUNK + OVERHEAD + 1024

  /** The primitives, all under one data key; digest is the hex SHA-256, mac the hex HMAC. */
  datatype Suite = Suite(
    seal: (Nonce, Bytes, Bytes) -> Bytes,
    open: (Nonce, Bytes, Bytes) -> Option<Bytes>,
    digest: Bytes -> string,
    mac: string -> string,
    base64: Bytes -> string)
  {
    ghost predicate Lawful() {
      && (forall n: Nonce, p: Bytes, a: Bytes ::
            |seal(n, p, a)| == |p| + OVERHEAD && open(n, seal(n, p, a), a) == Some(p))
      && (forall s :: mac(s) != "")
    }

    /** Nothing collides, and the encodings do not contain quotes. */
    ghost predicate Ideal() {
      && (forall a, b :: digest(a) == digest(b) ==> a == b)
      && (forall s, t :: mac(s) == mac(t) ==> s == t)
      && (forall a, b :: base64(a) == base64(b) ==> a == b)
      && (forall a :: '"' !in digest(a) && digest(a) != "")
      && (forall a :: '"' !in base64(a))
    }
  }

  datatype Metadata = Metadata(version: int, nonce: Bytes, chunkSize: int, chunks: int, sha: string, size: int,
                               mac: string)

  // ---------------------------------------------------------------- the counter nonce

  function LittleEndian(b: Bytes): nat {
    if b == [] then 0 else
      var low: int := b[0];
      low + 256 * LittleEndian(b[1..])
  }

  function Next(b: Bytes): (r: Bytes)
    ensures |r| == |b|
  {
    if b == [] then []
    else if b[0] == 255 then [0] + Next(b[1..])
    else [b[0] + 1] + b[1..]
  }

  /** incrementNonce, on the bytes in place. */
  method IncrementNonce(nonce: array<byte>)
    modifies nonce
    ensures nonce[..] == Next(old(nonce[..]))
  {
    ghost var was := nonce[..];
    var i := 0;
    while i < nonce.Length
      invariant 0 <= i <= nonce.Length
      invariant forall k :: 0 <= k < i ==> was[k] == 255 && nonce[k] == 0
      invariant forall k :: i <= k < nonce.Length ==> nonce[k] == was[k]
    {
      NextAt(was, i);
      nonce[i] := if nonce[i] == 255 then 0 else nonce[i] + 1;
      if nonce[i] != 0 { break; }
      i := i + 1;
    }
    NextAt(was, i);
    assert nonce[..] == Next(was);
  }

  /** Carries turn a prefix of 255s to zeros and stop at the first other byte. */
  lemma {:induction false} NextAt(b: Bytes, i: nat)
    requires i <= |b| && forall k :: 0 <= k < i ==> b[k] == 255
    ensures forall k :: 0 <= k < i ==> Next(b)[k] == 0
    ensures i < |b| && b[i] != 255 ==> Next(b)[i] == b[i] + 1 && forall k :: i < k < |b| ==> Next(b)[k] == b[k]
  {
    if i > 0 { NextAt(b[1..], i - 1); }
  }

  lemma {:induction false} LittleEndianBound(b: Bytes)
    ensures LittleEndian(b) < Pow256(|b|)
  {
    if b != [] { LittleEndianBound(b[1..]); }
  }

  /** The increment adds one modulo 256^n. */
  lemma {:induction false} NextAddsOne(b: Bytes)
    ensures LittleEndian(Next(b)) == if LittleEndian(b) + 1 == Pow256(|b|) then 0 else LittleEndian(b) + 1
  {
    if b != [] {
      NextAddsOne(b[1..]);
      LittleEndianBound(b[1..]);
      assert Next(b)[1..] == if b[0] == 255 then Next(b[1..]) else b[1..];
    }
  }

  function Nth(nonce: Bytes, k: nat): (r: Bytes)
    ensures |r| == |nonce|
  {
    if k == 0 then nonce else Next(Nth(nonce, k - 1))
  }

  /** Up to one full turn of the counter, k increments add k modulo 256^n. */
  lemma {:induction false} NthAdds(nonce: Bytes, k: nat)
    requires k < Pow256(|nonce|)
    ensures var sum := LittleEndian(nonce) + k;
            LittleEndian(Nth(nonce, k)) == if sum < Pow256(|nonce|) then sum else sum - Pow256(|nonce|)
    decreases k
  {
    LittleEndianBound(nonce);
    if k > 0 {
      NthAdds(nonce, k - 1);
      NextAddsOne(Nth(nonce, k - 1));
    }
  }

  /** No two chunks of one file share a nonce, up to 256^24 chunks. */
  lemma {:induction false} NoncesDistinct(nonce: Bytes, i: nat, j: nat)
    requires i < j < Pow256(|nonce|)
    ensures Nth(nonce, i) != Nth(nonce, j)
  {
    NthAdds(nonce, i);
    NthAdds(nonce, j);
    LittleEndianBound(nonce);
  }

  // ---------------------------------------------------------------- the stream

  /** The associated data of chunk i: its index, in 32 bits. */
  function IndexAD(i: nat): Bytes { BigEndian(i % TWO32, 4) }

  function Frame(sealed: Bytes): Bytes { BigEndian(|sealed|, 4) + sealed }

  /** The encryption of plain as chunks i, i + 1, ... */
  function Stream(s: Suite, nonce: Nonce, i: nat, plain: Bytes): Bytes
    decreases |plain|
  {
    if plain == [] then []
    else
      var n := Min(CHUNK, |plain|);
      Frame(s.seal(nonce, plain[..n], IndexAD(i))) + Stream(s, Next(nonce), i + 1, plain[n..])
  }

  function ChunkCount(n: nat): nat {
    if n == 0 then 0 else 1 + ChunkCount(n - Min(CHUNK, n))
  }

  /** One frame at position pos; before version 2 a chunk may also be bound to nothing. */
  function ReadFrame(s: Suite, version: int, stream: Bytes, pos: nat, nonce: Nonce, i: nat): (r: Piece)
    ensures r.Piece? ==> pos + 4 <= r.next <= |stream|
  {
    if pos >= |stream| then End
    else if pos + 4 > |stream| then Bad
    else
      var len := Value(stream[pos..pos + 4]);
      if len > MAX_CHUNK_LEN || pos + 4 + len > |stream| then Bad
      else
        var sealed := stream[pos + 4..pos + 4 + len];
        match s.open(nonce, sealed, IndexAD(i))
        case Some(plain) => Piece(plain, pos + 4 + len)
        case None =>
          if version >= 2 then Bad
          else match s.open(nonce, sealed, [])
               case Some(plain) => Piece(plain, pos + 4 + len)
               case None => Bad
  }

  /** The sealed bytes of the frame at pos, if it is all there and no longer than a chunk can be. */
  function SealedAt(stream: Bytes, pos: nat): Option<Bytes> {
    if pos + 4 > |stream| then None
    else
      var len := Value(stream[pos..pos + 4]);
      if len <= CHUNK + OVERHEAD + 1024 && pos + 4 + len <= |stream| then Some(stream[pos + 4..pos + 4 + len]) else None
  }

  /** A frame is read exactly when it opens under its nonce and index, or, before version 2, bound to nothing. */
  lemma {:induction false} FrameRules(s: Suite, version: int, stream: Bytes, pos: nat, nonce: Nonce, i: nat)
    ensures var r, sealed := ReadFrame(s, version, stream, pos, nonce, i), SealedAt(stream, pos);
            && (r == End <==> pos >= |stream|)
            && (r.Piece? <==>
                  && sealed.Some?
                  && (s.open(nonce, sealed.value, IndexAD(i)).Some?
                      || (version < 2 && s.open(nonce, sealed.value, []).Some?)))
            && (r.Piece? ==> r.next == pos + 4 + |sealed.value|)
            && (r.Piece? && version >= 2 ==> s.open(nonce, sealed.value, IndexAD(i)) == Some(r.plain))
  {
  }

  function Decode(s: Suite, version: int, stream: Bytes, pos: nat, nonce: Nonce, i: nat): Result<Bytes>
    decreases |stream| - pos
  {
    match ReadFrame(s, version, stream, pos, nonce, i)
    case End => Ok([])
    case Bad => Err
    case Piece(plain, next) =>
      match Decode(s, version, stream, next, Next(nonce), i + 1)
      case Err => Err
      case Ok(rest) => Ok(plain + rest)
  }

  lemma {:induction false} FrameReads(s: Suite, version: int, nonce: Nonce, i: nat, plain: Bytes, front: Bytes,
                                      back: Bytes)
    requires s.Lawful() && |plain| <= CHUNK
    ensures var frame := Frame(s.seal(nonce, plain, IndexAD(i)));
            && ReadFrame(s, version, front + frame + back, |front|, nonce, i) == Piece(plain, |front| + |frame|)
  {
    var sealed := s.seal(nonce, plain, IndexAD(i));
    var all := front + Frame(sealed) + back;
    var pos := |front|;
    assert s.open(nonce, sealed, IndexAD(i)) == Some(plain) && |sealed| == |plain| + OVERHEAD;
    Word32Fits(|sealed|);
    BigEndianRoundTrip(|sealed|, 4);
    assert all[pos..pos + 4] == BigEndian(|sealed|, 4);
    assert all[pos + 4..pos + 4 + |sealed|] == sealed;
  }

  /** Decoding undoes encrypting, wherever in the file the stream starts. */
  lemma {:induction false} DecodeStream(s: Suite, version: int, nonce: Nonce, i: nat, plain: Bytes, front: Bytes)
    requires s.Lawful()
    ensures Decode(s, version, front + Stream(s, nonce, i, plain), |front|, nonce, i) == Ok(plain)
    decreases |plain|
  {
    if plain == [] {
      assert front + [] == front;
    } else {
      var n := Min(CHUNK, |plain|);
      var frame := Frame(s.seal(nonce, plain[..n], IndexAD(i)));
      var back := Stream(s, Next(nonce), i + 1, plain[n..]);
      FrameReads(s, version, nonce, i, plain[..n], front, back);
      DecodeStream(s, version, Next(nonce), i + 1, plain[n..], front + frame);
      Associative(front, frame, back);
      DecodeOne(s, version, front + frame + back, |front|, nonce, i, plain[..n], |front + frame|, plain[n..]);
      assert plain[..n] + plain[n..] == plain;
    }
  }

  lemma {:induction false} DecodeOne(s: Suite, version: int, stream: Bytes, pos: nat, nonce: Nonce, i: nat,
                                     plain: Bytes, next: nat, rest: Bytes)
    requires ReadFrame(s, version, stream, pos, nonce, i) == Piece(plain, next)
    requires Decode(s, version, stream, next, Next(nonce), i + 1) == Ok(rest)
    ensures Decode(s, version, stream, pos, nonce, i) == Ok(plain + rest)
  {
  }

  // ---------------------------------------------------------------- where the chunks are

  /** The offsets of chunk k in the plaintext and of its frame in the stream. */
  function ChunkStart(k: nat): nat { k * 0x10_0000 }
  function FrameStart(k: nat): nat { k * (4 + 0x10_0000 + 16) }

  /** The length of chunk k of a plaintext of n bytes. */
  function ChunkLength(n: nat, k: nat): nat
    requires ChunkStart(k) < n
  {
    Min(CHUNK, n - ChunkStart(k))
  }

  lemma {:induction false} NthShifts(nonce: Bytes, k: nat)
    ensures Nth(Next(nonce), k) == Nth(nonce, k + 1)
  {
    if k > 0 { NthShifts(nonce, k - 1); }
  }

  lemma {:induction false} SliceShifts(a: Bytes, b: Bytes, i: nat, j: nat)
    requires i <= j <= |b|
    ensures (a + b)[|a| + i..|a| + j] == b[i..j]
  {
  }

  lemma {:induction false} SliceOfRest(p: Bytes, a: nat, i: nat, j: nat)
    requires a <= |p| && i <= j <= |p| - a
    ensures p[a..][i..j] == p[a + i..a + j]
  {
  }

  /** Chunk k, sealed under the k-th nonce and bound to its index. */
  function SealedChunk(s: Suite, nonce: Nonce, i: nat, plain: Bytes, k: nat): Bytes
    requires ChunkStart(k) < |plain|
  {
    s.seal(Nth(nonce, k), plain[ChunkStart(k)..ChunkStart(k) + ChunkLength(|plain|, k)], IndexAD(i + k))
  }

  predicate StandsAt(stream: Bytes, pos: nat, part: Bytes) {
    pos + |part| <= |stream| && stream[pos..pos + |part|] == part
  }

  lemma {:induction false} StandsBehind(front: Bytes, rest: Bytes, pos: nat, part: Bytes)
    requires StandsAt(rest, pos, part)
    ensures StandsAt(front + rest, |front| + pos, part)
  {
    SliceShifts(front, rest, pos, pos + |part|);
  }

  lemma {:induction false} ChunkBehind(s: Suite, nonce: Nonce, i: nat, plain: Bytes, k: nat)
    requires k > 0 && ChunkStart(k) < |plain|
    ensures SealedChunk(s, Next(nonce), i + 1, plain[CHUNK..], k - 1) == SealedChunk(s, nonce, i, plain, k)
  {
    NthShifts(nonce, k - 1);
    SliceOfRest(plain, CHUNK, ChunkStart(k - 1), ChunkStart(k - 1) + ChunkLength(|plain|, k));
  }

  lemma {:induction false} FirstFrame(s: Suite, nonce: Nonce, i: nat, plain: Bytes)
    requires plain != []
    ensures StandsAt(Stream(s, nonce, i, plain), 0, Frame(SealedChunk(s, nonce, i, plain, 0)))
  {
    var m := Min(CHUNK, |plain|);
    assert plain[0..m] == plain[..m];
  }

  lemma {:induction false} FullFrame(s: Suite, nonce: Nonce, i: nat, plain: Bytes)
    requires s.Lawful() && |plain| > CHUNK
    ensures |Frame(s.seal(nonce, plain[..CHUNK], IndexAD(i)))| == FrameStart(1)
  {
  }

  lemma {:induction false} FrameBehind(s: Suite, nonce: Nonce, i: nat, plain: Bytes, k: nat)
    requires k > 0 && ChunkStart(k) < |plain|
    requires |Frame(s.seal(nonce, plain[..CHUNK], IndexAD(i)))| == FrameStart(1)
    requires StandsAt(Stream(s, Next(nonce), i + 1, plain[CHUNK..]), FrameStart(k - 1),
                      Frame(SealedChunk(s, Next(nonce), i + 1, plain[CHUNK..], k - 1)))
    ensures StandsAt(Stream(s, nonce, i, plain), FrameStart(k), Frame(SealedChunk(s, nonce, i, plain, k)))
  {
    var frame, rest := Frame(s.seal(nonce, plain[..CHUNK], IndexAD(i))), Stream(s, Next(nonce), i + 1, plain[CHUNK..]);
    ChunkBehind(s, nonce, i, plain, k);
    StandsBehind(frame, rest, FrameStart(k - 1), Frame(SealedChunk(s, Next(nonce), i + 1, plain[CHUNK..], k - 1)));
    assert Stream(s, nonce, i, plain) == frame + rest;
  }

  /** Frame k of a stream is the sealed chunk k. */
  lemma {:induction false} FrameAt(s: Suite, nonce: Nonce, i: nat, plain: Bytes, k: nat)
    requires s.Lawful() && ChunkStart(k) < |plain|
    ensures StandsAt(Stream(s, nonce, i, plain), FrameStart(k), Frame(SealedChunk(s, nonce, i, plain, k)))
    decreases k
  {
    if k == 0 {
      FirstFrame(s, nonce, i, plain);
    } else {
      FullFrame(s, nonce, i, plain);
      FrameAt(s, Next(nonce), i + 1, plain[CHUNK..], k - 1);
      FrameBehind(s, nonce, i, plain, k);
    }
  }

  /** The number of frames, by their length prefixes. */
  function Frames(stream: Bytes): nat {
    if |stream| < 4 then 0
    else if 4 + Value(stream[..4]) > |stream| then 0
    else 1 + Frames(stream[4 + Value(stream[..4])..])
  }

  /** A stream has as many frames as there are chunks, and each costs a length and a tag. */
  lemma {:induction false} FramesCounted(s: Suite, nonce: Nonce, i: nat, plain: Bytes)
    requires s.Lawful()
    ensures Frames(Stream(s, nonce, i, plain)) == ChunkCount(|plain|)
    ensures |Stream(s, nonce, i, plain)| == |plain| + ChunkCount(|plain|) * (4 + OVERHEAD)
    decreases |plain|
  {
    if plain != [] {
      var n := Min(CHUNK, |plain|);
      var sealed := s.seal(nonce, plain[..n], IndexAD(i));
      var rest := Stream(s, Next(nonce), i + 1, plain[n..]);
      FramesCounted(s, Next(nonce), i + 1, plain[n..]);
      assert |sealed| == n + OVERHEAD;
      Word32Fits(|sealed|);
      BigEndianRoundTrip(|sealed|, 4);
      assert (Frame(sealed) + rest)[..4] == BigEndian(|sealed|, 4);
      assert (Frame(sealed) + rest)[4 + |sealed|..] == rest;
    }
  }

  lemma {:induction false} CountCovers(n: nat)
    ensures (ChunkCount(n) as int - 1) * 0x10_0000 < n <= ChunkCount(n) * 0x10_0000
  {
    if n > 0 { CountCovers(n - Min(CHUNK, n)); }
  }

  /** Up to 2^32 chunks, two chunks are bound to different indices. */
  lemma {:induction false} IndicesDistinct(j: nat, k: nat)
    requires j < k < TWO32
    ensures IndexAD(j) != IndexAD(k)
  {
    IndexReads(j);
    IndexReads(k);
  }

  lemma {:induction false} IndexReads(i: nat)
    requires i < TWO32
    ensures Value(IndexAD(i)) == i
  {
    Word32Fits(i);
    BigEndianRoundTrip(i, 4);
  }

  // ---------------------------------------------------------------- the metadata MAC

  function Digit(d: nat): char
    requires d < 10
  {
    ('0' as int + d) as char
  }

  function Digits(n: nat): string {
    if n < 10 then [Digit(n)] else Digits(n / 10) + [Digit(n % 10)]
  }

  function Decimal(n: int): string { if n < 0 then "-" + Digits(-n) else Digits(n) }

  function Field(text: string, sep: char, rest: string): string { text + [sep] + rest }

  /** The string the MAC covers: [version,"nonce",chunk size,chunks,"digest",size]. */
  function Canonical(s: Suite, m: Metadata): string {
    "[" + Field(Decimal(m.version), ',', "\"" + Field(s.base64(m.nonce), '"', "," + Counts(m)))
  }

  function Counts(m: Metadata): string {
    Field(Decimal(m.chunkSize), ',', Field(Decimal(m.chunks), ',', "\"" + Sizes(m)))
  }

  function Sizes(m: Metadata): string { Field(m.sha, '"', "," + Field(Decimal(m.size), ']', "")) }

  function ComputeMac(s: Suite, m: Metadata): string { s.mac(Canonical(s, m)) }

  /** Reading a number back. */
  function Parse(s: string): int {
    if s == [] then 0 else Parse(s[..|s| - 1]) * 10 + (s[|s| - 1] as int - '0' as int)
  }

  function ParseSigned(s: string): int {
    if s != [] && s[0] == '-' then -Parse(s[1..]) else Parse(s)
  }

  lemma {:induction false} DigitsParse(n: nat)
    ensures Digits(n) != [] && Parse(Digits(n)) == n
    ensures forall c :: c in Digits(n) ==> '0' <= c <= '9'
  {
    if n < 10 {
      assert Parse([Digit(n)][..0]) == 0;
    } else {
      DigitsParse(n / 10);
      assert Digits(n)[..|Digits(n)| - 1] == Digits(n / 10);
    }
  }

  lemma {:induction false} DecimalParses(n: int)
    ensures ParseSigned(Decimal(n)) == n
    ensures ',' !in Decimal(n) && ']' !in Decimal(n)
  {
    if n < 0 {
      DigitsParse(-n);
      assert Decimal(n)[1..] == Digits(-n);
    } else {
      DigitsParse(n);
      assert Decimal(n)[0] in Digits(n);
    }
  }

  /** A separator that occurs in neither field tells where the fields end. */
  lemma {:induction false} FieldEnds(a: string, x: string, b: string, y: string, sep: char)
    requires sep !in a && sep !in b && Field(a, sep, x) == Field(b, sep, y)
    ensures a == b && x == y
    decreases |a|
  {
    var l, r := Field(a, sep, x), Field(b, sep, y);
    assert l[0] == r[0] && l[1..] == r[1..];
    assert a == [] ==> l[1..] == x;
    assert b == [] ==> r[1..] == y;
    if a != [] && b != [] {
      assert l[1..] == Field(a[1..], sep, x) && r[1..] == Field(b[1..], sep, y);
      FieldEnds(a[1..], x, b[1..], y, sep);
    }
  }

  lemma {:induction false} Peel(c: string, x: string, y: string)
    requires c + x == c + y
    ensures x == y
  {
    assert x == (c + x)[|c|..] && y == (c + y)[|c|..];
  }

  lemma {:induction false} NumberEnds(m: int, x: string, n: int, y: string, sep: char)
    requires (sep == ',' || sep == ']') && Field(Decimal(m), sep, x) == Field(Decimal(n), sep, y)
    ensures m == n && x == y
  {
    DecimalParses(m);
    DecimalParses(n);
    FieldEnds(Decimal(m), x, Decimal(n), y, sep);
  }

  lemma {:induction false} CountsInjective(m: Metadata, n: Metadata)
    requires '"' !in m.sha && '"' !in n.sha && Counts(m) == Counts(n)
    ensures m.chunkSize == n.chunkSize && m.chunks == n.chunks && m.sha == n.sha && m.size == n.size
  {
    NumberEnds(m.chunkSize, Field(Decimal(m.chunks), ',', "\"" + Sizes(m)),
               n.chunkSize, Field(Decimal(n.chunks), ',', "\"" + Sizes(n)), ',');
    NumberEnds(m.chunks, "\"" + Sizes(m), n.chunks, "\"" + Sizes(n), ',');
    Peel("\"", Sizes(m), Sizes(n));
    FieldEnds(m.sha, "," + Field(Decimal(m.size), ']', ""), n.sha, "," + Field(Decimal(n.size), ']', ""), '"');
    Peel(",", Field(Decimal(m.size), ']', ""), Field(Decimal(n.size), ']', ""));
    NumberEnds(m.size, "", n.size, "", ']');
  }

  /** The MAC's input determines every field but the MAC. */
  lemma {:induction false} CanonicalInjective(s: Suite, m: Metadata, n: Metadata)
    requires s.Ideal() && '"' !in m.sha && '"' !in n.sha && Canonical(s, m) == Canonical(s, n)
    ensures m.(mac := "") == n.(mac := "")
  {
    var a, b := "," + Counts(m), "," + Counts(n);
    var x, y := "\"" + Field(s.base64(m.nonce), '"', a), "\"" + Field(s.base64(n.nonce), '"', b);
    Peel("[", Field(Decimal(m.version), ',', x), Field(Decimal(n.version), ',', y));
    NumberEnds(m.version, x, n.version, y, ',');
    Peel("\"", Field(s.base64(m.nonce), '"', a), Field(s.base64(n.nonce), '"', b));
    FieldEnds(s.base64(m.nonce), a, s.base64(n.nonce), b, '"');
    Peel(",", Counts(m), Counts(n));
    CountsInjective(m, n);
  }

  // ---------------------------------------------------------------- files

  /** The metadata of an encrypted file. */
  function Describe(s: Suite, nonce: Nonce, data: Bytes): Metadata {
    var m := Metadata(2, nonce, CHUNK, ChunkCount(|data|), s.digest(data), |data|, "");
    m.(mac := ComputeMac(s, m))
  }

  /** What the metadata say of file and stream. */
  ghost predicate Describes(s: Suite, meta: Metadata, nonce: Nonce, data: Bytes, stream: Bytes) {
    && meta.version == 2 && meta.nonce == nonce && meta.chunkSize == CHUNK
    && meta.size == |data| && meta.sha == s.digest(data) && meta.mac == s.mac(Canonical(s, meta))
    && (meta.chunks - 1) * 0x10_0000 < |data| <= meta.chunks * 0x10_0000
    && (s.Lawful() ==> Frames(stream) == meta.chunks && |stream| == |data| + meta.chunks * (4 + OVERHEAD))
  }

  lemma {:induction false} DescribeDescribes(s: Suite, nonce: Nonce, data: Bytes)
    ensures Describes(s, Describe(s, nonce, data), nonce, data, Stream(s, nonce, 0, data))
  {
    CountCovers(|data|);
    MacIgnoresMac(s, Describe(s, nonce, data));
    if s.Lawful() { FramesCounted(s, nonce, 0, data); }
  }

  /** WireJSON drops the digest. */
  function Wire(m: Metadata): Metadata { m.(sha := "") }

  /** EncryptFile. */
  method Encrypt(s: Suite, nonce: Nonce, data: Bytes) returns (stream: Bytes, meta: Metadata)
    ensures stream == Stream(s, nonce, 0, data) && meta == Describe(s, nonce, data)
    ensures Describes(s, meta, nonce, data, stream)
  {
    var current := new byte[NONCE](i requires 0 <= i < NONCE => nonce[i]);
    assert current[..] == nonce;
    stream := [];
    var chunks, total := 0, 0;
    assert stream + Stream(s, nonce, 0, data[0..]) == Stream(s, nonce, 0, data) by { assert data[0..] == data; }
    while true
      invariant |current[..]| == NONCE && Encrypting(s, nonce, data, stream, current[..], chunks, total)
      decreases |data| - total
    {
      var n := Min(CHUNK, |data| - total);
      if n > 0 {
        EncryptStep(s, nonce, data, stream, current[..], chunks, total);
        stream := stream + Frame(s.seal(current[..], data[total..total + n], IndexAD(chunks)));
        IncrementNonce(current);
        chunks := chunks + 1;
        total := total + n;
      }
      if n < CHUNK { break; }
    }
    EncryptDone(s, nonce, data, stream, current[..], chunks, total);
    meta := Metadata(2, nonce, CHUNK, chunks, s.digest(data), total, "");
    meta := meta.(mac := ComputeMac(s, meta));
  }

  /** So far the stream is the beginning of the whole one, and the rest comes from the data not yet read. */
  ghost predicate Encrypting(s: Suite, nonce: Nonce, data: Bytes, stream: Bytes, current: Nonce, chunks: nat,
                             total: nat) {
    && total <= |data|
    && stream + Stream(s, current, chunks, data[total..]) == Stream(s, nonce, 0, data)
    && chunks + ChunkCount(|data| - total) == ChunkCount(|data|)
  }

  lemma {:induction false} EncryptStep(s: Suite, nonce: Nonce, data: Bytes, stream: Bytes, current: Nonce,
                                       chunks: nat, total: nat)
    requires Encrypting(s, nonce, data, stream, current, chunks, total) && total < |data|
    ensures var n := Min(CHUNK, |data| - total);
            Encrypting(s, nonce, data, stream + Frame(s.seal(current, data[total..total + n], IndexAD(chunks))),
                       Next(current), chunks + 1, total + n)
  {
    StreamGoesOn(s, current, chunks, data, total, stream);
  }

  lemma {:induction false} EncryptDone(s: Suite, nonce: Nonce, data: Bytes, stream: Bytes, current: Nonce,
                                       chunks: nat, total: nat)
    requires Encrypting(s, nonce, data, stream, current, chunks, total) && total == |data|
    ensures stream == Stream(s, nonce, 0, data) && chunks == ChunkCount(|data|)
    ensures Describes(s, Describe(s, nonce, data), nonce, data, stream)
  {
    assert stream + [] == stream;
    DescribeDescribes(s, nonce, data);
  }

  lemma {:induction false} StreamGoesOn(s: Suite, nonce: Nonce, i: nat, data: Bytes, total: nat, done: Bytes)
    requires total < |data|
    ensures var n := Min(CHUNK, |data| - total);
            done + Stream(s, nonce, i, data[total..])
            == done + Frame(s.seal(nonce, data[total..total + n], IndexAD(i)))
               + Stream(s, Next(nonce), i + 1, data[total + n..])
  {
    var n := Min(CHUNK, |data| - total);
    var rest := data[total..];
    var frame := Frame(s.seal(nonce, data[total..total + n], IndexAD(i)));
    var back := Stream(s, Next(nonce), i + 1, data[total + n..]);
    assert Stream(s, nonce, i, rest) == frame + back by {
      assert rest[..n] == data[total..total + n] && rest[n..] == data[total + n..];
    }
    Associative(done, frame, back);
  }

  lemma {:induction false} Associative(a: Bytes, b: Bytes, c: Bytes)
    ensures a + (b + c) == a + b + c
  {
  }

  /** copy into a buffer of nonce size. */
  function Fit(nonce: Bytes): Nonce {
    if |nonce| >= NONCE then nonce[..NONCE] else nonce + seq(NONCE - |nonce|, i => 0)
  }

  /** The checks behind the loop of decryptReader. */
  function Accepts(s: Suite, meta: Metadata, plain: Bytes): bool {
    && (meta.sha == "" || s.digest(plain) == meta.sha)
    && meta.mac != ""
    && meta.mac == ComputeMac(s, meta.(sha := if meta.sha == "" then s.digest(plain) else meta.sha))
  }

  function Decrypted(s: Suite, meta: Metadata, stream: Bytes): Result<Bytes> {
    match Decode(s, meta.version, stream, 0, Fit(meta.nonce), 0)
    case Err => Err
    case Ok(plain) => if Accepts(s, meta, plain) then Ok(plain) else Err
  }

  /** decryptReader. */
  method Decrypt(s: Suite, meta: Metadata, stream: Bytes) returns (r: Result<Bytes>)
    ensures r == Decrypted(s, meta, stream)
  {
    var start := Fit(meta.nonce);
    var current := new byte[NONCE](i requires 0 <= i < NONCE => start[i]);
    assert current[..] == start;
    var result: Bytes := [];
    var pos: nat, i: nat := 0, 0;
    PrefixedNothing(Decode(s, meta.version, stream, 0, start, 0));
    while true
      invariant pos <= |stream| && |current[..]| == NONCE
      invariant Decode(s, meta.version, stream, 0, start, 0)
             == Prefixed(result, Decode(s, meta.version, stream, pos, current[..], i))
      decreases |stream| - pos
    {
      DecodeGoesOn(s, meta.version, stream, pos, current[..], i, result);
      var piece := ReadFrame(s, meta.version, stream, pos, current[..], i);
      if piece == Bad { return Err; }
      if piece == End { break; }
      result := result + piece.plain;
      IncrementNonce(current);
      pos, i := piece.next, i + 1;
    }
    r := if Accepts(s, meta, result) then Ok(result) else Err;
  }

  lemma {:induction false} DecodeGoesOn(s: Suite, version: int, stream: Bytes, pos: nat, nonce: Nonce, i: nat,
                                        result: Bytes)
    ensures var all := Prefixed(result, Decode(s, version, stream, pos, nonce, i));
            match ReadFrame(s, version, stream, pos, nonce, i)
            case End => all == Ok(result)
            case Bad => all == Err
            case Piece(plain, next) => all == Prefixed(result + plain,
                                                       Decode(s, version, stream, next, Next(nonce), i + 1))
  {
    match ReadFrame(s, version, stream, pos, nonce, i)
    case End => assert result + [] == result;
    case Bad =>
    case Piece(plain, next) => PrefixedTwice(result, plain, Decode(s, version, stream, next, Next(nonce), i + 1));
  }

  // ---------------------------------------------------------------- theorems

  /** Decrypting what was encrypted gives it back, with the wire metadata and with the full one. */
  lemma {:induction false} RoundTrip(s: Suite, nonce: Nonce, data: Bytes)
    requires s.Lawful()
    ensures Decrypted(s, Wire(Describe(s, nonce, data)), Stream(s, nonce, 0, data)) == Ok(data)
    ensures Decrypted(s, Describe(s, nonce, data), Stream(s, nonce, 0, data)) == Ok(data)
  {
    DecodeStream(s, 2, nonce, 0, data, []);
    assert [] + Stream(s, nonce, 0, data) == Stream(s, nonce, 0, data);
    OwnMetadata(s, nonce, data);
  }

  lemma {:induction false} OwnMetadata(s: Suite, nonce: Nonce, data: Bytes)
    requires forall x :: s.mac(x) != ""
    ensures Accepts(s, Describe(s, nonce, data), data) && Accepts(s, Wire(Describe(s, nonce, data)), data)
    ensures Fit(nonce) == nonce
  {
    var m := Describe(s, nonce, data);
    MacIgnoresMac(s, m);
    assert m.(sha := s.digest(data)) == m;
    assert Wire(m).(sha := s.digest(data)) == m;
  }

  lemma {:induction false} MacIgnoresMac(s: Suite, m: Metadata)
    ensures ComputeMac(s, m) == ComputeMac(s, m.(mac := ""))
  {
    assert Canonical(s, m) == Canonical(s, m.(mac := ""));
  }

  /** Nothing is returned that does not have the MAC of its metadata and, where one is given, the digest. */
  lemma {:induction false} AcceptedIsChecked(s: Suite, meta: Metadata, stream: Bytes)
    requires Decrypted(s, meta, stream).Ok?
    ensures var plain := Decrypted(s, meta, stream).value;
            && meta.mac != "" && meta.mac == s.mac(Canonical(s, meta.(sha := s.digest(plain))))
            && (meta.sha != "" ==> meta.sha == s.digest(plain))
  {
  }

  /**
   Whatever stream and metadata are presented with the MAC of an encrypted file: if decryption accepts them it
   returns that file, whole and in order, and the metadata is the file's, with or without the digest.
   */
  lemma {:induction false} AcceptedIsWhole(s: Suite, nonce: Nonce, data: Bytes, meta: Metadata, stream: Bytes)
    requires s.Ideal()
    ensures meta.mac == Describe(s, nonce, data).mac && Decrypted(s, meta, stream).Ok? ==>
              Decrypted(s, meta, stream) == Ok(data)
    ensures meta.mac == Describe(s, nonce, data).mac && Decrypted(s, meta, stream).Ok? ==>
              meta == Describe(s, nonce, data) || meta == Wire(Describe(s, nonce, data))
  {
    var m := Describe(s, nonce, data).(mac := "");
    if meta.mac == s.mac(Canonical(s, m)) && Decrypted(s, meta, stream).Ok? {
      var plain := Decrypted(s, meta, stream).value;
      var n := meta.(sha := if meta.sha == "" then s.digest(plain) else meta.sha);
      assert s.mac(Canonical(s, m)) == s.mac(Canonical(s, n));
      assert '"' !in m.sha && '"' !in n.sha;
      CanonicalInjective(s, m, n);
      assert s.digest(plain) == s.digest(data);
    }
  }
}
