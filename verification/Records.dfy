/** What the two chunked file formats have in common: chunk, nonce and tag sizes, and the outcome of reading. */
module Records {
  import opened Machine

  const CHUNK: nat := 0x10_0000
  const NONCE: nat := 24
  const OVERHEAD: nat := 16

  type Nonce = n: Bytes | |n| == NONCE witness seq(NONCE, i => 0)

  datatype Result<T> = Ok(value: T) | Err

  /** The end of the file, a damaged record, or a chunk and the position behind it. */
  datatype Piece = End | Bad | Piece(plain: Bytes, next: nat)

  function Min(a: int, b: int): int { if a < b then a else b }

  function Prefixed(done: Bytes, rest: Result<Bytes>): Result<Bytes> {
    if rest.Ok? then Ok(done + rest.value) else Err
  }

  lemma {:induction false} PrefixedNothing(rest: Result<Bytes>)
    ensures Prefixed([], rest) == rest
  {
    if rest.Ok? { assert [] + rest.value == rest.value; }
  }

  lemma {:induction false} PrefixedTwice(a: Bytes, b: Bytes, rest: Result<Bytes>)
    ensures Prefixed(a, Prefixed(b, rest)) == Prefixed(a + b, rest)
  {
    if rest.Ok? { assert a + (b + rest.value) == a + b + rest.value; }
  }
}
