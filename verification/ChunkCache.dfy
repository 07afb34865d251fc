/** The small first-in first-out cache of decrypted chunks inside the blob store (internal/mount/cache/store.go). */
module ChunkCache {
  import opened Machine
  import opened Options
  import opened Records
  import opened BlobFormat

  const CHUNK_CACHE_MAX: nat := 8

  datatype Key = Key(hash: string, idx: nat)

  /** At most eight keys, none twice, and every cached chunk is the one its key names. */
  ghost predicate Agrees(cache: map<Key, Bytes>, order: seq<Key>, contents: map<string, Bytes>) {
    && |order| <= CHUNK_CACHE_MAX
    && (forall i, j :: 0 <= i < j < |order| ==> order[i] != order[j])
    && (forall k :: k in order <==> k in cache)
    && (forall k :: k in cache ==> Names(k, cache[k], contents))
  }

  ghost predicate Names(k: Key, plain: Bytes, contents: map<string, Bytes>) {
    k.hash in contents && Start(k.idx) < |contents[k.hash]| && plain == ChunkOf(contents[k.hash], k.idx)
  }

  /** Plaintexts may be added, or dropped once no chunk of theirs is cached. */
  lemma {:induction false} AgreesElsewhere(cache: map<Key, Bytes>, order: seq<Key>, was: map<string, Bytes>,
                                           now: map<string, Bytes>)
    requires Agrees(cache, order, was)
    requires forall k :: k in cache ==> k.hash in now && k.hash in was && now[k.hash] == was[k.hash]
    ensures Agrees(cache, order, now)
  {
  }

  /** The order after k was put. */
  function Queued(order: seq<Key>, k: Key): seq<Key> {
    if |order| < CHUNK_CACHE_MAX then order + [k] else order[1..] + [k]
  }

  lemma {:induction false} PushKeeps(cache: map<Key, Bytes>, order: seq<Key>, contents: map<string, Bytes>, k: Key,
                                     plain: Bytes)
    requires Agrees(cache, order, contents) && k !in cache && Names(k, plain, contents)
    ensures |order| < CHUNK_CACHE_MAX ==> Agrees(cache[k := plain], Queued(order, k), contents)
    ensures |order| == CHUNK_CACHE_MAX ==> Agrees((cache - {order[0]})[k := plain], Queued(order, k), contents)
  {
  }

  /** The keys of other blobs, in their order. */
  function OfOthers(order: seq<Key>, hash: string): seq<Key> {
    if order == [] then []
    else
      var n := |order| - 1;
      OfOthers(order[..n], hash) + if order[n].hash == hash then [] else [order[n]]
  }

  /** Each kept key stands behind the kept ones that were in front of it. */
  lemma {:induction false} OthersAt(order: seq<Key>, hash: string, i: nat)
    requires i < |order| && order[i].hash != hash
    ensures var at := |OfOthers(order[..i], hash)|;
            at < |OfOthers(order, hash)| && OfOthers(order, hash)[at] == order[i]
  {
    var n := |order| - 1;
    if i < n {
      assert order[..n][..i] == order[..i];
      OthersAt(order[..n], hash, i);
    }
  }

  lemma {:induction false} OthersAre(order: seq<Key>, hash: string)
    ensures forall k :: k in OfOthers(order, hash) <==> k in order && k.hash != hash
    ensures |OfOthers(order, hash)| <= |order|
  {
    if order != [] {
      var n := |order| - 1;
      OthersAre(order[..n], hash);
      assert forall k :: k in order <==> k in order[..n] || k == order[n];
    }
  }

  ghost predicate Distinct(keys: seq<Key>) { forall i, j :: 0 <= i < j < |keys| ==> keys[i] != keys[j] }

  lemma {:induction false} OthersDistinct(order: seq<Key>, hash: string)
    requires Distinct(order)
    ensures Distinct(OfOthers(order, hash))
  {
    if order != [] {
      var n := |order| - 1;
      OthersDistinct(order[..n], hash);
      OthersAre(order[..n], hash);
      assert order[n] !in order[..n];
    }
  }

  /** The loop of a drop before position i of the order. */
  ghost predicate Dropping(was: map<Key, Bytes>, order: seq<Key>, hash: string, i: nat, chunks: map<Key, Bytes>,
                           kept: seq<Key>) {
    && i <= |order| && kept == OfOthers(order[..i], hash)
    && (forall k :: k in chunks <==> k in was && !(k in order[..i] && k.hash == hash))
    && (forall k :: k in chunks ==> chunks[k] == was[k])
  }

  lemma {:induction false} DropStep(was: map<Key, Bytes>, order: seq<Key>, hash: string, i: nat,
                                    chunks: map<Key, Bytes>, kept: seq<Key>)
    requires i < |order| && Dropping(was, order, hash, i, chunks, kept)
    ensures order[i].hash == hash ==> Dropping(was, order, hash, i + 1, chunks - {order[i]}, kept)
    ensures order[i].hash != hash ==> Dropping(was, order, hash, i + 1, chunks, kept + [order[i]])
  {
    assert order[..i + 1] == order[..i] + [order[i]] && order[..i + 1][..i] == order[..i];
  }

  class Cache {
    var chunks: map<Key, Bytes>
    var order: seq<Key>

    constructor ()
      ensures chunks == map[] && order == []
    {
      chunks, order := map[], [];
    }

    /** chunkCachePut: a new key goes to the back and pushes the oldest out. */
    method Put(k: Key, plain: Bytes, ghost contents: map<string, Bytes>)
      requires Agrees(chunks, order, contents) && Names(k, plain, contents)
      modifies this
      ensures Agrees(chunks, order, contents)
      ensures k in chunks && chunks[k] == plain
      ensures forall x :: x in chunks && x != k ==> x in old(chunks)
      ensures order == if k in old(chunks) then old(order) else Queued(old(order), k)
    {
      if k !in chunks {
        PushKeeps(chunks, order, contents, k, plain);
        order := order + [k];
        while |order| > CHUNK_CACHE_MAX
          invariant |old(order)| < |order| ==> order == old(order) + [k] && chunks == old(chunks)
          invariant |old(order)| >= |order| ==>
                      |old(order)| == 8 && order == old(order)[1..] + [k] && chunks == old(chunks) - {old(order)[0]}
        {
          assert order[1..] == old(order)[1..] + [k];
          chunks := chunks - {order[0]};
          order := order[1..];
        }
      }
      chunks := chunks[k := plain];
    }

    /** chunkCacheDrop: exactly the chunks of one blob go. */
    method Drop(hash: string, ghost contents: map<string, Bytes>)
      requires Agrees(chunks, order, contents)
      modifies this
      ensures Agrees(chunks, order, contents)
      ensures forall k :: k in chunks <==> k in old(chunks) && k.hash != hash
      ensures order == OfOthers(old(order), hash)
    {
      var kept: seq<Key> := [];
      var i := 0;
      while i < |order|
        invariant 0 <= i <= |order| && order == old(order) && Dropping(old(chunks), order, hash, i, chunks, kept)
      {
        DropStep(old(chunks), order, hash, i, chunks, kept);
        if order[i].hash == hash {
          chunks := chunks - {order[i]};
        } else {
          kept := kept + [order[i]];
        }
        i := i + 1;
      }
      assert order[..i] == order;
      OthersAre(order, hash);
      OthersDistinct(order, hash);
      order := kept;
    }
  }
}
