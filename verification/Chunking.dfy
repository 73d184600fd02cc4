/** File content as CHUNK_SIZE pieces, and what ranged writes and resizes do to the bytes. */
module Chunking {
  import opened Tables

  const CHUNK_SIZE: nat := 65536

  function Min(a: int, b: int): int { if a < b then a else b }
  function Max(a: int, b: int): int { if a > b then a else b }

  /** The number of chunks of a file of `n` bytes; an empty file has none. */
  function NumChunks(n: nat): nat {
    (n + CHUNK_SIZE - 1) / CHUNK_SIZE
  }

  /** Piece `i` of a content: all pieces are full but the last. */
  function Piece(s: Bytes, i: nat): Bytes {
    s[Min(i * CHUNK_SIZE, |s|)..Min((i + 1) * CHUNK_SIZE, |s|)]
  }

  /** The canonical chunk list of a content. */
  ghost function ListOf(s: Bytes): map<nat, Key> {
    map i: nat | 0 <= i < NumChunks(|s|) :: Sha256(Piece(s, i))
  }

  function Zeros(n: nat): (z: Bytes)
    ensures |z| == n && forall i :: 0 <= i < n ==> z[i] == 0
  {
    seq(n, _ => 0)
  }

  /** `data` written at `off`: bytes outside the range stay, a gap past the old end is zero. */
  function Splice(s: Bytes, off: nat, data: Bytes): Bytes {
    if data == [] then s else
    var padded := if |s| < off then s + Zeros(off - |s|) else s;
    padded[..off] + data + padded[Min(off + |data|, |padded|)..]
  }

  /** `s` cut to `n` bytes, or zero-extended to it. */
  function Resize(s: Bytes, n: nat): Bytes {
    if n <= |s| then s[..n] else s + Zeros(n - |s|)
  }

  /** A content is cut every 65536 bytes. */
  lemma PieceIs(s: Bytes, i: nat)
    ensures |Piece(s, i)| == if |s| <= 65536 * i then 0 else if |s| < 65536 * (i + 1) then |s| - 65536 * i else 65536
    ensures forall j :: 0 <= j < |Piece(s, i)| ==> Piece(s, i)[j] == s[65536 * i + j]
    ensures i < NumChunks(|s|) <==> 65536 * i < |s|
  {
  }

  lemma SpliceAt(s: Bytes, off: nat, data: Bytes)
    requires data != []
    ensures |Splice(s, off, data)| == Max(|s|, off + |data|)
    ensures forall j :: 0 <= j < |Splice(s, off, data)| ==>
      Splice(s, off, data)[j] ==
        if off <= j < off + |data| then data[j - off] else if j < |s| then s[j] else 0
  {
  }

  /** Growing is the splice of a zero tail. */
  lemma ResizeIsSplice(s: Bytes, n: nat)
    requires n > |s|
    ensures Resize(s, n) == Splice(s, |s|, Zeros(n - |s|))
  {
  }

  // ------------------------------------------------------------------ the content a list denotes

  /** The bytes of the first `n` chunks of a list. */
  ghost function Concat(l: map<nat, Key>, n: nat): Bytes {
    if n == 0 then [] else Concat(l, n - 1) + (if n - 1 in l then l[n - 1].preimage else [])
  }

  lemma PieceAfterPrefix(s: Bytes, i: nat)
    ensures s[..Min(i * CHUNK_SIZE, |s|)] + Piece(s, i) == s[..Min((i + 1) * CHUNK_SIZE, |s|)]
  {
  }

  lemma {:induction false} ConcatPieces(s: Bytes, n: nat)
    requires n <= NumChunks(|s|)
    ensures Concat(ListOf(s), n) == s[..Min(n * CHUNK_SIZE, |s|)]
  {
    if n > 0 {
      ConcatPieces(s, n - 1);
      PieceAfterPrefix(s, n - 1);
    }
  }

  /** A canonical list denotes exactly one content. */
  lemma ListDenotes(s: Bytes)
    ensures Concat(ListOf(s), NumChunks(|s|)) == s
  {
    ConcatPieces(s, NumChunks(|s|));
    assert s[..|s|] == s;
  }
}
