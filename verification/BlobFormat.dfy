/**
 The file format of a cached blob (internal/mount/cache/store.go): a sequence of records, each a four-byte
 length, a nonce and a sealed chunk that is bound to the chunk's offset and to the blob's hash.
 */
module BlobFormat {
  import opened Machine
  import opened Options
  import opened Records

  /** The offset of chunk i in the plaintext, and of its record in the file; literals keep the products linear. */
  function Start(i: nat): nat { i * 0x10_0000 }
  function Position(i: nat): nat { i * (4 + 24 + 0x10_0000 + 16) }

  datatype Binding = Binding(offset: nat, hash: string)

  /** Authenticated encryption under the store's key. */
  datatype Cipher = Cipher(seal: (Nonce, Bytes, Binding) -> Bytes, open: (Nonce, Bytes, Binding) -> Option<Bytes>) {
    ghost predicate Lawful() {
      forall n: Nonce, p: Bytes, a: Binding ::
        |seal(n, p, a)| == |p| + OVERHEAD && open(n, seal(n, p, a), a) == Some(p)
    }
  }

  // ---------------------------------------------------------------- reading, whatever the file holds

  /** One record at position pos: the end of the file, a damaged record, or the chunk and the next position. */
  function ReadRecord(c: Cipher, hash: string, file: Bytes, pos: nat, offset: nat): (r: Piece)
    ensures r.Piece? ==> pos + 4 + NONCE <= r.next <= |file|
  {
    if pos >= |file| then End
    else if pos + 4 > |file| then Bad
    else
      var len := Value(file[pos..pos + 4]);
      var body := pos + 4 + NONCE;
      if body + len > |file| then Bad
      else match c.open(file[pos + 4..body], file[body..body + len], Binding(offset, hash))
           case None => Bad
           case Some(plain) => Piece(plain, body + len)
  }

  /** All records from pos on. */
  function Decode(c: Cipher, hash: string, file: Bytes, pos: nat, offset: nat): Result<Bytes>
    decreases |file| - pos
  {
    match ReadRecord(c, hash, file, pos, offset)
    case End => Ok([])
    case Bad => Err
    case Piece(plain, next) =>
      match Decode(c, hash, file, next, offset + |plain|)
      case Err => Err
      case Ok(rest) => Ok(plain + rest)
  }

  // ---------------------------------------------------------------- files that hold a plaintext

  /** What stands at a file position, read as the chunk of a given offset. */
  type Reader = (nat, nat) -> Piece

  function ReaderOf(c: Cipher, hash: string, file: Bytes): Reader {
    (pos: nat, offset: nat) => ReadRecord(c, hash, file, pos, offset)
  }

  function RecordSize(n: nat): nat { 4 + NONCE + n + OVERHEAD }

  /** From pos on, the records are plain, cut into full chunks and a last shorter one, and nothing else. */
  ghost predicate Holds(read: Reader, size: nat, pos: nat, plain: Bytes, offset: nat)
    decreases |plain|
  {
    if plain == [] then pos == size
    else
      var n := Min(CHUNK, |plain|);
      && pos + RecordSize(n) <= size
      && read(pos, offset) == Piece(plain[..n], pos + RecordSize(n))
      && Holds(read, size, pos + RecordSize(n), plain[n..], offset + n)
  }

  ghost predicate FileHolds(c: Cipher, hash: string, file: Bytes, plain: Bytes) {
    Holds(ReaderOf(c, hash, file), |file|, 0, plain, 0)
  }

  /** Reading from front to back gives the plaintext. */
  lemma {:induction false} DecodeHeld(c: Cipher, hash: string, file: Bytes, pos: nat, plain: Bytes, offset: nat)
    requires Holds(ReaderOf(c, hash, file), |file|, pos, plain, offset)
    ensures Decode(c, hash, file, pos, offset) == Ok(plain)
    decreases |plain|
  {
    if plain != [] {
      var n := Min(CHUNK, |plain|);
      assert ReaderOf(c, hash, file)(pos, offset) == ReadRecord(c, hash, file, pos, offset);
      DecodeHeld(c, hash, file, pos + RecordSize(n), plain[n..], offset + n);
      assert plain[..n] + plain[n..] == plain;
    }
  }

  /** Chunk i of a plaintext. */
  function ChunkOf(plain: Bytes, i: nat): Bytes
    requires Start(i) <= |plain|
  {
    plain[Start(i)..Min(Start(i + 1), |plain|)]
  }

  /** The records behind the first i ones hold the plaintext behind the first i chunks. */
  lemma {:induction false} HoldsFrom(read: Reader, size: nat, pos: nat, plain: Bytes, offset: nat, i: nat)
    requires Holds(read, size, pos, plain, offset) && Start(i) <= |plain|
    ensures Holds(read, size, pos + Position(i), plain[Start(i)..], offset + Start(i))
    decreases i
  {
    if i == 0 {
      assert plain[0..] == plain;
    } else {
      HoldsFrom(read, size, pos + RecordSize(CHUNK), plain[CHUNK..], offset + CHUNK, i - 1);
      assert plain[CHUNK..][Start(i - 1)..] == plain[Start(i)..];
    }
  }

  lemma {:induction false} ChunkIsPrefix(plain: Bytes, i: nat)
    requires Start(i) < |plain|
    ensures plain[Start(i)..][..Min(CHUNK, |plain| - Start(i))] == ChunkOf(plain, i)
  {
  }

  /** What a reader that seeks to record i finds: chunk i, or the end of the file. */
  lemma {:induction false} RecordAt(read: Reader, size: nat, plain: Bytes, i: nat)
    requires Holds(read, size, 0, plain, 0)
    ensures Start(i) < |plain| ==>
              var r := read(Position(i), Start(i)); r.Piece? && r.plain == ChunkOf(plain, i)
    ensures |plain| <= Start(i) ==> size <= Position(i)
    ensures Start(i) <= |plain| ==> Position(i) <= size
  {
    if Start(i) <= |plain| {
      HoldsFrom(read, size, 0, plain, 0, i);
      if Start(i) < |plain| { ChunkIsPrefix(plain, i); }
    } else {
      var n := |plain| / 0x10_0000;
      HoldsFrom(read, size, 0, plain, 0, n);
      ShortEnd(read, size, Position(n), plain[Start(n)..], Start(n));
    }
  }

  lemma {:induction false} ShortEnd(read: Reader, size: nat, pos: nat, plain: Bytes, offset: nat)
    requires Holds(read, size, pos, plain, offset) && |plain| < CHUNK
    ensures pos <= size <= pos + RecordSize(CHUNK)
  {
    if plain != [] { assert plain[|plain|..] == []; }
  }

  /** The size of a file with n bytes of plaintext: each chunk costs a length, a nonce and a tag. */
  function SealedSize(n: nat): nat { n + (n + 0xF_FFFF) / 0x10_0000 * (4 + 24 + 16) }

  lemma {:induction false} HeldSize(read: Reader, size: nat, pos: nat, plain: Bytes, offset: nat)
    requires Holds(read, size, pos, plain, offset)
    ensures size == pos + SealedSize(|plain|)
    decreases |plain|
  {
    if plain != [] {
      var n := Min(CHUNK, |plain|);
      HeldSize(read, size, pos + RecordSize(n), plain[n..], offset + n);
    }
  }

  // ---------------------------------------------------------------- writing

  /** The bytes of one sealed record. */
  function Record(c: Cipher, nonce: Nonce, plain: Bytes, at: Binding): Bytes {
    var sealed := c.seal(nonce, plain, at);
    BigEndian(|sealed|, 4) + nonce + sealed
  }

  lemma {:induction false} RecordReads(c: Cipher, nonce: Nonce, plain: Bytes, at: Binding, file: Bytes)
    requires c.Lawful() && |plain| <= CHUNK
    ensures |Record(c, nonce, plain, at)| == RecordSize(|plain|)
    ensures ReadRecord(c, at.hash, file + Record(c, nonce, plain, at), |file|, at.offset)
         == Piece(plain, |file| + RecordSize(|plain|))
  {
    var sealed := c.seal(nonce, plain, at);
    var rec := Record(c, nonce, plain, at);
    var all := file + rec;
    var pos := |file|;
    assert c.open(nonce, sealed, at) == Some(plain) && |sealed| == |plain| + OVERHEAD;
    Word32Fits(|sealed|);
    BigEndianRoundTrip(|sealed|, 4);
    assert all[pos..pos + 4] == BigEndian(|sealed|, 4);
    assert all[pos + 4..pos + 4 + NONCE] == nonce;
    assert all[pos + 4 + NONCE..pos + 4 + NONCE + |sealed|] == sealed;
  }

  /** A file of m full chunks takes one more record. */
  lemma {:induction false} AppendRecord(read: Reader, size: nat, more: Reader, pos: nat, plain: Bytes, offset: nat,
                                        chunk: Bytes, m: nat)
    requires Holds(read, size, pos, plain, offset) && |plain| == Start(m) && 0 < |chunk| <= CHUNK
    requires forall p, o :: read(p, o).Piece? ==> more(p, o) == read(p, o)
    requires more(size, offset + |plain|) == Piece(chunk, size + RecordSize(|chunk|))
    ensures Holds(more, size + RecordSize(|chunk|), pos, plain + chunk, offset)
    decreases m
  {
    if m == 0 {
      assert plain + chunk == chunk && chunk[..|chunk|] == chunk && chunk[|chunk|..] == [];
    } else {
      AppendRecord(read, size, more, pos + RecordSize(CHUNK), plain[CHUNK..], offset + CHUNK, chunk, m - 1);
      assert (plain + chunk)[..CHUNK] == plain[..CHUNK];
      assert (plain + chunk)[CHUNK..] == plain[CHUNK..] + chunk;
    }
  }

  lemma {:induction false} SamePrefix(c: Cipher, hash: string, file: Bytes, more: Bytes, pos: nat, offset: nat)
    requires ReadRecord(c, hash, file, pos, offset).Piece?
    ensures ReadRecord(c, hash, file + more, pos, offset) == ReadRecord(c, hash, file, pos, offset)
  {
    var all := file + more;
    var len := Value(file[pos..pos + 4]);
    var body := pos + 4 + NONCE;
    assert all[pos..pos + 4] == file[pos..pos + 4];
    assert all[pos + 4..body] == file[pos + 4..body];
    assert all[body..body + len] == file[body..body + len];
  }

  /** sealStream; draw(i) is the random nonce of record i. */
  method SealStream(c: Cipher, draw: nat -> Nonce, data: Bytes, hash: string) returns (file: Bytes)
    requires c.Lawful()
    ensures FileHolds(c, hash, file, data)
  {
    file := [];
    var total := 0;
    var i := 0;
    while true
      invariant total <= |data| && (total == Start(i) || total == |data|)
      invariant FileHolds(c, hash, file, data[..total])
      decreases |data| - total
    {
      var n := Min(CHUNK, |data| - total);
      if n > 0 {
        SealNext(c, draw(i), data, hash, file, total, n, i);
        file := file + Record(c, draw(i), data[total..total + n], Binding(total, hash));
        total := total + n;
        i := i + 1;
      }
      if n < CHUNK { break; }
    }
    assert data[..total] == data;
  }

  lemma {:induction false} SealNext(c: Cipher, nonce: Nonce, data: Bytes, hash: string, file: Bytes, total: nat,
                                    n: nat, i: nat)
    requires c.Lawful() && total == Start(i) && 0 < n <= CHUNK && total + n <= |data|
    requires FileHolds(c, hash, file, data[..total])
    ensures FileHolds(c, hash, file + Record(c, nonce, data[total..total + n], Binding(total, hash)), data[..total + n])
  {
    var chunk := data[total..total + n];
    var rec := Record(c, nonce, chunk, Binding(total, hash));
    var read, more := ReaderOf(c, hash, file), ReaderOf(c, hash, file + rec);
    RecordReads(c, nonce, chunk, Binding(total, hash), file);
    forall p, o | read(p, o).Piece? ensures more(p, o) == read(p, o) { SamePrefix(c, hash, file, rec, p, o); }
    AppendRecord(read, |file|, more, 0, data[..total], 0, chunk, i);
    assert data[..total] + chunk == data[..total + n];
  }
}
