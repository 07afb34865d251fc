/**
 The encrypted blob store (internal/mount/cache/store.go).  ReadAt seeks and caches; its results are slices of
 what the sequential Get returns, after any sequence of calls.
 */
module BlobStore {
  import opened Machine
  import opened Options
  import opened Records
  import opened BlobFormat
  import opened ChunkCache
  import opened Sums

  function SizeOf(file: Bytes): nat { |file| }

  /** Every file holds the plaintext its name is the digest of, and is no longer than a file can be. */
  ghost predicate FilesHold(c: Cipher, digest: Bytes -> string, files: map<string, Bytes>,
                            contents: map<string, Bytes>) {
    && files.Keys == contents.Keys
    && (forall h {:trigger FileHolds(c, h, files[h], contents[h])} :: h in files ==>
          FileHolds(c, h, files[h], contents[h]) && |files[h]| < TWO63 && digest(contents[h]) == h)
  }

  ghost predicate Injective(digest: Bytes -> string) { forall a, b :: digest(a) == digest(b) ==> a == b }

  lemma {:induction false} SameDigest(digest: Bytes -> string, a: Bytes, b: Bytes)
    requires Injective(digest) && digest(a) == digest(b)
    ensures a == b
  {
  }

  lemma {:induction false} AddFile(c: Cipher, digest: Bytes -> string, files: map<string, Bytes>,
                                   contents: map<string, Bytes>, file: Bytes,
                data: Bytes)
    requires FilesHold(c, digest, files, contents) && digest(data) !in files
    requires FileHolds(c, digest(data), file, data) && |file| < TWO63
    ensures FilesHold(c, digest, files[digest(data) := file], contents[digest(data) := data])
    ensures Sum(files[digest(data) := file], SizeOf) == Sum(files, SizeOf) + |file|
  {
    SumUpdate(files, SizeOf, digest(data), file);
    assert files - {digest(data)} == files;
    var files', contents' := files[digest(data) := file], contents[digest(data) := data];
    forall h | h in files'
      ensures FileHolds(c, h, files'[h], contents'[h]) && |files'[h]| < TWO63 && digest(contents'[h]) == h
    {
      if h != digest(data) { assert FileHolds(c, h, files[h], contents[h]); }
    }
  }

  lemma {:induction false} DropFile(c: Cipher, digest: Bytes -> string, files: map<string, Bytes>,
                                    contents: map<string, Bytes>, hash: string)
    requires FilesHold(c, digest, files, contents) && hash in files
    ensures FilesHold(c, digest, files - {hash}, contents - {hash})
    ensures Sum(files - {hash}, SizeOf) == Sum(files, SizeOf) - |files[hash]|
    ensures |files[hash]| == SealedSize(|contents[hash]|)
  {
    SumWithout(files, SizeOf, hash);
    assert FileHolds(c, hash, files[hash], contents[hash]);
    HeldSize(ReaderOf(c, hash, files[hash]), |files[hash]|, 0, contents[hash], 0);
    var files', contents' := files - {hash}, contents - {hash};
    forall h | h in files'
      ensures FileHolds(c, h, files'[h], contents'[h]) && |files'[h]| < TWO63 && digest(contents'[h]) == h
    {
      assert FileHolds(c, h, files[h], contents[h]);
    }
  }

  // ---------------------------------------------------------------- what calls store

  /** The calls that change what is stored; first is what was hashed, second what was read back while sealing. */
  datatype Call = Putting(first: Bytes, second: Bytes, fails: bool) | Removing(hash: string, fails: bool)

  /** A blob is there already, or its file is written whole, is what was hashed, and is no longer than a file can be. */
  predicate Accepted(digest: Bytes -> string, contents: map<string, Bytes>, first: Bytes, second: Bytes, fails: bool) {
    digest(first) in contents || (!fails && second == first && SealedSize(|second|) < TWO63)
  }

  function AfterCall(digest: Bytes -> string, contents: map<string, Bytes>, call: Call): map<string, Bytes> {
    match call
    case Putting(first, second, fails) =>
      if Accepted(digest, contents, first, second, fails) then contents[digest(first) := first] else contents
    case Removing(hash, fails) => if hash == "" || fails then contents else contents - {hash}
  }

  function AfterCalls(digest: Bytes -> string, calls: seq<Call>): map<string, Bytes> {
    if calls == [] then map[] else AfterCall(digest, AfterCalls(digest, calls[..|calls| - 1]), calls[|calls| - 1])
  }

  /** The i-th call stored the data, and no later one removed it. */
  ghost predicate PutAndKept(digest: Bytes -> string, calls: seq<Call>, i: nat, data: Bytes) {
    && i < |calls| && calls[i].Putting? && calls[i].first == data
    && Accepted(digest, AfterCalls(digest, calls[..i]), data, calls[i].second, calls[i].fails)
    && forall j :: i < j < |calls| ==> calls[j] != Removing(digest(data), false) || digest(data) == ""
  }

  lemma {:induction false} PutAndKeptOn(digest: Bytes -> string, calls: seq<Call>, i: nat, data: Bytes)
    requires calls != [] && i < |calls| - 1
    ensures PutAndKept(digest, calls, i, data) <==>
              && PutAndKept(digest, calls[..|calls| - 1], i, data)
              && (calls[|calls| - 1] != Removing(digest(data), false) || digest(data) == "")
  {
    var n := |calls| - 1;
    assert calls[..n][..i] == calls[..i];
    assert forall j :: 0 <= j < n ==> calls[..n][j] == calls[j];
  }

  /** After any calls, a blob is stored, under its digest, exactly when some call put it and none removed it since. */
  lemma {:induction false} StoredExactly(digest: Bytes -> string, calls: seq<Call>, data: Bytes)
    requires Injective(digest)
    ensures digest(data) in AfterCalls(digest, calls) <==> exists i: nat :: PutAndKept(digest, calls, i, data)
    ensures digest(data) in AfterCalls(digest, calls) ==> AfterCalls(digest, calls)[digest(data)] == data
  {
    if calls != [] {
      var n := |calls| - 1;
      StoredExactly(digest, calls[..n], data);
      forall i: nat | i < n
        ensures PutAndKept(digest, calls, i, data) <==>
                  && PutAndKept(digest, calls[..n], i, data)
                  && (calls[n] != Removing(digest(data), false) || digest(data) == "")
      {
        PutAndKeptOn(digest, calls, i, data);
      }
      StoredStep(digest, calls, data);
    }
  }

  lemma {:induction false} StoredStep(digest: Bytes -> string, calls: seq<Call>, data: Bytes)
    requires Injective(digest) && calls != []
    requires var n := |calls| - 1;
             && (digest(data) in AfterCalls(digest, calls[..n]) <==>
                   exists i: nat :: PutAndKept(digest, calls[..n], i, data))
             && (digest(data) in AfterCalls(digest, calls[..n]) ==>
                   AfterCalls(digest, calls[..n])[digest(data)] == data)
             && forall i: nat :: i < n ==>
                  (PutAndKept(digest, calls, i, data) <==>
                     && PutAndKept(digest, calls[..n], i, data)
                     && (calls[n] != Removing(digest(data), false) || digest(data) == ""))
    ensures digest(data) in AfterCalls(digest, calls) <==> exists i: nat :: PutAndKept(digest, calls, i, data)
    ensures digest(data) in AfterCalls(digest, calls) ==> AfterCalls(digest, calls)[digest(data)] == data
  {
    var n := |calls| - 1;
    var before, last := AfterCalls(digest, calls[..n]), calls[n];
    if last.Putting? && digest(last.first) == digest(data) { SameDigest(digest, last.first, data); }
    if i: nat :| PutAndKept(digest, calls, i, data) {
      if i < n { assert PutAndKept(digest, calls[..n], i, data); }
      assert digest(data) in AfterCalls(digest, calls);
    }
    if digest(data) in AfterCalls(digest, calls) {
      if last.Putting? && last.first == data && Accepted(digest, before, data, last.second, last.fails) {
        assert PutAndKept(digest, calls, n, data);
      } else {
        var i: nat :| PutAndKept(digest, calls[..n], i, data);
        assert PutAndKept(digest, calls, i, data);
      }
    }
  }

  // ---------------------------------------------------------------- ranges of a plaintext

  /** The part of p from lo up to hi, cut off at its end. */
  function Range(p: Bytes, lo: nat, hi: int): Bytes {
    if lo < hi && lo < |p| then p[lo..Min(hi, |p|)] else []
  }

  /** ReadAt, as a range: nothing for an empty request or one whose end overflows, and an error when the blob
      is missing or the record position overflows. */
  function RangeRead(contents: map<string, Bytes>, hash: string, off: int64, size: int64): Result<Bytes> {
    if size <= 0 || off < 0 || off + size >= TWO63 then Ok([])
    else if hash !in contents || Position(off / 0x10_0000) >= TWO63 then Err
    else Ok(Range(contents[hash], off, off + size))
  }

  /** A stored blob is read exactly when neither sum overflows, or nothing lies in the range anyway. */
  lemma {:induction false} ReadIsSliceExactly(contents: map<string, Bytes>, hash: string, off: int64, size: int64)
    requires hash in contents && 0 <= off && 0 < size && |contents[hash]| < TWO63
    ensures RangeRead(contents, hash, off, size) == Ok(Range(contents[hash], off, off + size)) <==>
              if off + size < TWO63 then Position(off / 0x10_0000) < TWO63 else off >= |contents[hash]|
  {
    var r := Range(contents[hash], off, off + size);
    if off < |contents[hash]| { assert |r| > 0; }
  }

  /** Two bytes, read with an end that overflows: nothing comes back.  A seek that overflows is an error. */
  lemma {:induction false} OverflowReadsNothing(a: byte, b: byte)
    ensures RangeRead(map["h" := [a, b]], "h", 1, 0x7FFF_FFFF_FFFF_FFFF) == Ok([])
    ensures Range([a, b], 1, 1 + 0x7FFF_FFFF_FFFF_FFFF) == [b]
    ensures RangeRead(map["h" := [a, b]], "h", 0x7FFF_FFFF_FFFF_FFFE, 1) == Err
    ensures Range([a, b], 0x7FFF_FFFF_FFFF_FFFE, 0x7FFF_FFFF_FFFF_FFFF) == []
  {
  }

  lemma {:induction false} RangeStep(p: Bytes, off: nat, end: nat, i: nat)
    requires Start(i) < |p| && Start(i) < end && off < Start(i + 1)
    ensures Range(p, off, Min(Start(i + 1), end))
         == Range(p, off, Min(Start(i), end)) + Part(ChunkOf(p, i), off, end, i)
    ensures |ChunkOf(p, i)| < CHUNK ==> Range(p, off, Min(Start(i + 1), end)) == Range(p, off, end)
  {
    var a, b := Start(i), Min(Start(i + 1), |p|);
    RangeJoin(p, off, a, b, Min(Start(i + 1), end), Min(end - a, b - a));
  }

  /** The range up to hi is the range up to a and the part of p[a..b] that lies in it. */
  lemma {:induction false} RangeJoin(p: Bytes, off: nat, a: nat, b: nat, hi: nat, cut: nat)
    requires a < b <= |p| && a < hi && cut <= b - a && a + cut == Min(hi, |p|)
    ensures var lo := if off > a then off - a else 0;
            Range(p, off, hi) == Range(p, off, a) + (if lo < cut then p[a..b][lo..cut] else [])
  {
    var lo := if off > a then off - a else 0;
    if lo < cut { SliceOfSlice(p, a, b, lo, cut); }
    if off < a { JoinSlices(p, off, a, a + cut); }
  }

  lemma {:induction false} SliceOfSlice(p: Bytes, a: nat, b: nat, lo: nat, hi: nat)
    requires a <= b <= |p| && lo <= hi <= b - a
    ensures p[a..b][lo..hi] == p[a + lo..a + hi]
  {
    var x, y := p[a..b][lo..hi], p[a + lo..a + hi];
    assert |x| == |y|;
    forall i | 0 <= i < |x| ensures x[i] == y[i] {}
  }

  lemma {:induction false} JoinSlices(p: Bytes, i: nat, j: nat, k: nat)
    requires i <= j <= k <= |p|
    ensures p[i..j] + p[j..k] == p[i..k]
  {
    var x, y := p[i..j] + p[j..k], p[i..k];
    assert |x| == |y|;
    forall n | 0 <= n < |x| ensures x[n] == y[n] {}
  }

  // ---------------------------------------------------------------- the store

  datatype Fetched = Failed | PastEnd | Fetched(plain: Bytes)

  function Fetch(contents: map<string, Bytes>, hash: string, i: nat): Fetched {
    if hash !in contents then Failed
    else if Start(i) < |contents[hash]| then Fetched(ChunkOf(contents[hash], i))
    else if Position(i) >= TWO63 then Failed else PastEnd
  }

  /** The result so far when the loop of ReadAt stands before chunk i. */
  ghost predicate Partial(contents: map<string, Bytes>, hash: string, off: nat, end: nat, i: nat, result: Bytes) {
    var first := off / 0x10_0000;
    && first <= i
    && (i == first ==> result == [])
    && (i > first ==>
          && hash in contents && Start(i) <= |contents[hash]| && Position(i) < TWO63
          && result == Range(contents[hash], off, Min(Start(i), end)))
  }

  lemma {:induction false} ReadStops(contents: map<string, Bytes>, hash: string, off: int64, size: int64, i: nat,
                                     result: Bytes)
    requires 0 <= off && 0 < size && off + size < TWO63 && Partial(contents, hash, off, off + size, i, result)
    ensures Start(i) >= off + size ==> RangeRead(contents, hash, off, size) == Ok(result)
    ensures Start(i) < off + size && Fetch(contents, hash, i) == PastEnd ==>
              RangeRead(contents, hash, off, size) == Ok(result)
    ensures Start(i) < off + size && Fetch(contents, hash, i) == Failed ==>
              RangeRead(contents, hash, off, size) == Err
  {
    PositionGrows(off / 0x10_0000, i);
  }

  lemma {:induction false} PositionGrows(i: nat, j: nat)
    ensures i <= j ==> Start(i) <= Start(j) && Position(i) <= Position(j)
  {
  }

  /** What the loop of ReadAt appends from chunk i. */
  function Part(plain: Bytes, off: nat, end: int, i: nat): Bytes {
    var lo := if off > Start(i) then off - Start(i) else 0;
    var hi := Min(end - Start(i), |plain|);
    if lo < hi then plain[lo..hi] else []
  }

  lemma {:induction false} ReadGoesOn(contents: map<string, Bytes>, hash: string, off: int64, size: int64, i: nat,
                                      result: Bytes,
                   plain: Bytes)
    requires 0 <= off && 0 < size && off + size < TWO63 && Partial(contents, hash, off, off + size, i, result)
    requires Start(i) < off + size && Fetch(contents, hash, i) == Fetched(plain) && Position(i) < TWO63
    ensures |plain| < CHUNK ==> RangeRead(contents, hash, off, size) == Ok(result + Part(plain, off, off + size, i))
    ensures |plain| >= CHUNK && Position(i + 1) < TWO63 ==>
              Partial(contents, hash, off, off + size, i + 1, result + Part(plain, off, off + size, i))
  {
    PositionGrows(off / 0x10_0000, i);
    RangeStep(contents[hash], off, off + size, i);
  }

  /** readChunkAt: a 64-bit seek to record i, whose position is refused when it wraps, and the record there. */
  function SeekRead(c: Cipher, hash: string, file: Bytes, i: nat): Piece {
    var pos := Wrap64(Position(i));
    if pos < 0 then Bad else ReadRecord(c, hash, file, pos, Start(i))
  }

  lemma {:induction false} SeekWraps(i: nat)
    requires Start(i) < TWO63
    ensures Wrap64(Position(i)) < 0 <==> Position(i) >= TWO63
    ensures Position(i) < TWO63 ==> Wrap64(Position(i)) == Position(i)
  {
  }

  /** On a file that holds a plaintext, seeking finds the chunk, the end, or an overflow behind the end. */
  lemma {:induction false} SeekFinds(c: Cipher, hash: string, file: Bytes, plain: Bytes, i: nat)
    requires FileHolds(c, hash, file, plain) && |file| < TWO63 && Start(i) < TWO63
    ensures var r := SeekRead(c, hash, file, i);
            if Start(i) < |plain| then r.Piece? && r.plain == ChunkOf(plain, i)
            else if Position(i) >= TWO63 then r == Bad else r == End
    ensures Start(i) <= |plain| ==> Position(i) < TWO63
    ensures Start(i + 1) <= |plain| ==> Position(i + 1) < TWO63
  {
    var read := ReaderOf(c, hash, file);
    RecordAt(read, |file|, plain, i);
    RecordAt(read, |file|, plain, i + 1);
    SeekWraps(i);
    if Position(i) < TWO63 { assert read(Position(i), Start(i)) == ReadRecord(c, hash, file, Position(i), Start(i)); }
  }

  lemma {:induction false} SumWraps(off: int64, size: int64)
    requires 0 <= off && 0 < size
    ensures if off + size < TWO63 then Wrap64(off + size) == off + size else Wrap64(off + size) < 0
  {
  }

  class Store {
    const cipher: Cipher
    const digest: Bytes -> string
    const cache: Cache
    var files: map<string, Bytes>
    var bytes: int
    ghost var contents: map<string, Bytes>

    ghost predicate Valid()
      reads this, cache
    {
      && FilesHold(cipher, digest, files, contents)
      && Agrees(cache.chunks, cache.order, contents)
      && bytes == Sum(files, SizeOf)
    }

    /** The laws assumed of the cipher and the digest. */
    ghost predicate Ideal() { cipher.Lawful() && Injective(digest) }

    constructor (cipher: Cipher, digest: Bytes -> string)
      ensures this.cipher == cipher && this.digest == digest
      ensures Valid() && contents == map[] && fresh(cache)
    {
      this.cipher, this.digest := cipher, digest;
      this.cache := new Cache();
      files, bytes, contents := map[], 0, map[];
    }

    /** Put; fails says whether the file system refuses the new file. */
    method Put(data: Bytes, draw: nat -> Nonce, fails: bool) returns (r: Result<string>)
      requires Valid() && Ideal()
      modifies this
      ensures Valid()
      ensures r == if digest(data) in old(contents) || (!fails && SealedSize(|data|) < TWO63) then Ok(digest(data))
                   else Err
      ensures contents == if r.Ok? then old(contents)[digest(data) := data] else old(contents)
      ensures bytes == old(bytes) + if r.Ok? && digest(data) !in old(contents) then SealedSize(|data|) else 0
      ensures digest(data) in old(contents) || r.Err? ==> files == old(files)
    {
      r := PutFile(data, data, draw, fails);
    }

    /** PutFile: first is what was hashed, second what was read back while sealing. */
    method PutFile(first: Bytes, second: Bytes, draw: nat -> Nonce, fails: bool) returns (r: Result<string>)
      requires Valid() && Ideal()
      modifies this
      ensures Valid()
      ensures r == if Accepted(digest, old(contents), first, second, fails) then Ok(digest(first)) else Err
      ensures contents == AfterCall(digest, old(contents), Putting(first, second, fails))
      ensures bytes == old(bytes) + if r.Ok? && digest(first) !in old(contents) then SealedSize(|first|) else 0
      ensures digest(first) in old(contents) || r.Err? ==> files == old(files)
    {
      var hash := digest(first);
      if hash in files {
        assert FileHolds(cipher, hash, files[hash], contents[hash]);
        SameDigest(digest, contents[hash], first);
        return Ok(hash);
      }
      var file := SealStream(cipher, draw, second, hash);
      HeldSize(ReaderOf(cipher, hash, file), |file|, 0, second, 0);
      if fails || digest(second) != hash || |file| >= TWO63 { return Err; }
      SameDigest(digest, first, second);
      AddFile(cipher, digest, files, contents, file, first);
      AgreesElsewhere(cache.chunks, cache.order, contents, contents[hash := first]);
      files := files[hash := file];
      contents := contents[hash := first];
      bytes := bytes + |file|;
      r := Ok(hash);
    }

    /** Get: every record from the first to the last. */
    method Get(hash: string) returns (r: Result<Bytes>)
      requires Valid()
      ensures r == if hash in contents then Ok(contents[hash]) else Err
    {
      if hash !in files { return Err; }
      r := DecodeFile(cipher, hash, files[hash]);
      assert FileHolds(cipher, hash, files[hash], contents[hash]);
      DecodeHeld(cipher, hash, files[hash], 0, contents[hash], 0);
    }

    /** ReadAt. */
    method ReadAt(hash: string, off: int64, size: int64) returns (r: Result<Bytes>)
      requires Valid()
      modifies cache
      ensures Valid()
      ensures r == RangeRead(contents, hash, off, size)
    {
      if size <= 0 || off < 0 { return Ok([]); }
      var end := Wrap64(off + size);
      SumWraps(off, size);
      r := ReadRange(hash, off, size, end);
    }

    /** The loop of ReadAt. */
    method ReadRange(hash: string, off: int64, size: int64, end: int64) returns (r: Result<Bytes>)
      requires Valid() && 0 <= off && 0 < size
      requires if off + size < TWO63 then end == off + size else end < 0
      modifies cache
      ensures Valid()
      ensures r == RangeRead(contents, hash, off, size)
    {
      var result: Bytes := [];
      var i: nat := off / 0x10_0000;
      while Start(i) < end
        invariant Valid() && Partial(contents, hash, off, off + size, i, result) && (end < 0 ==> result == [])
        decreases end - Start(i)
      {
        var stop;
        stop, r, result := ReadRound(hash, off, size, i, result);
        if stop { return; }
        i := i + 1;
      }
      if off + size < TWO63 { ReadStops(contents, hash, off, size, i, result); }
      r := Ok(result);
    }

    /** One round of that loop: the answer, or the result so far including chunk i. */
    method ReadRound(hash: string, off: int64, size: int64, i: nat, result: Bytes)
      returns (stop: bool, r: Result<Bytes>, more: Bytes)
      requires Valid() && 0 <= off && 0 < size && Start(i) < off + size < TWO63
      requires Partial(contents, hash, off, off + size, i, result)
      modifies cache
      ensures Valid()
      ensures stop ==> r == RangeRead(contents, hash, off, size)
      ensures !stop ==> Partial(contents, hash, off, off + size, i + 1, more)
    {
      var got := FetchChunk(hash, i);
      ReadStops(contents, hash, off, size, i, result);
      if got == Failed { return true, Err, result; }
      if got == PastEnd || got.plain == [] { return true, Ok(result), result; }
      ReadGoesOn(contents, hash, off, size, i, result, got.plain);
      more := result + Part(got.plain, off, off + size, i);
      return |got.plain| < CHUNK, Ok(more), more;
    }

    /** One round of the ReadAt loop: the cached chunk, or the one read by seeking. */
    method FetchChunk(hash: string, i: nat) returns (r: Fetched)
      requires Valid() && Start(i) < TWO63
      modifies cache
      ensures Valid()
      ensures r == Fetch(contents, hash, i)
      ensures r.Fetched? ==> Position(i) < TWO63 && (|r.plain| >= CHUNK ==> Position(i + 1) < TWO63)
    {
      var k := Key(hash, i);
      if hash in files {
        assert FileHolds(cipher, hash, files[hash], contents[hash]);
        SeekFinds(cipher, hash, files[hash], contents[hash], i);
      }
      if k in cache.chunks { return Fetched(cache.chunks[k]); }
      if hash !in files { return Failed; }
      match SeekRead(cipher, hash, files[hash], i)
      case End => r := PastEnd;
      case Bad => r := Failed;
      case Piece(plain, _) =>
        cache.Put(k, plain, contents);
        r := Fetched(plain);
    }

    /** Remove; fails says whether the file system keeps the file.  Its cached chunks go either way. */
    method Remove(hash: string, fails: bool) returns (ok: bool)
      requires Valid()
      modifies this, cache
      ensures Valid()
      ensures ok == (hash == "" || (hash in old(contents) && !fails))
      ensures contents == AfterCall(digest, old(contents), Removing(hash, fails))
      ensures bytes == old(bytes) - if hash in old(contents) && hash !in contents then SealedSize(|old(contents)[hash]|)
                                    else 0
      ensures hash != "" ==> forall k :: k in cache.chunks ==> k.hash != hash
    {
      if hash == "" { return true; }
      cache.Drop(hash, contents);
      if hash !in files || fails { return false; }
      DropFile(cipher, digest, files, contents, hash);
      AgreesElsewhere(cache.chunks, cache.order, contents, contents - {hash});
      bytes := bytes - |files[hash]|;
      files := files - {hash};
      contents := contents - {hash};
      ok := true;
    }
  }

  /** The loop of Get. */
  method DecodeFile(c: Cipher, hash: string, file: Bytes) returns (r: Result<Bytes>)
    ensures r == Decode(c, hash, file, 0, 0)
  {
    var result: Bytes := [];
    var pos: nat, offset: nat := 0, 0;
    PrefixedNothing(Decode(c, hash, file, 0, 0));
    while true
      invariant pos <= |file|
      invariant Decode(c, hash, file, 0, 0) == Prefixed(result, Decode(c, hash, file, pos, offset))
      decreases |file| - pos
    {
      DecodeGoesOn(c, hash, file, pos, offset, result);
      match ReadRecord(c, hash, file, pos, offset)
      case End => return Ok(result);
      case Bad => return Err;
      case Piece(plain, next) =>
        result := result + plain;
        pos, offset := next, offset + |plain|;
    }
  }

  lemma {:induction false} DecodeGoesOn(c: Cipher, hash: string, file: Bytes, pos: nat, offset: nat, result: Bytes)
    ensures match ReadRecord(c, hash, file, pos, offset)
            case End => Prefixed(result, Decode(c, hash, file, pos, offset)) == Ok(result)
            case Bad => Prefixed(result, Decode(c, hash, file, pos, offset)) == Err
            case Piece(plain, next) =>
              Prefixed(result, Decode(c, hash, file, pos, offset))
              == Prefixed(result + plain, Decode(c, hash, file, next, offset + |plain|))
  {
    match ReadRecord(c, hash, file, pos, offset)
    case End => assert result + [] == result;
    case Bad =>
    case Piece(plain, next) => PrefixedTwice(result, plain, Decode(c, hash, file, next, offset + |plain|));
  }
}
