/** Cutting an APDU into the I-blocks of a chain, as both roles do. */
module Chunking {
  import opened Wire
  import opened Blocks
  import opened Protocol

  /** Prologue and epilogue of an I-block. */
  function Overhead(h: Handler): nat {
    1 + (if h.cid.Some? then 1 else 0) + 2
  }

  function MaxInf(size: nat, h: Handler): nat {
    if size > Overhead(h) then size - Overhead(h) else 0
  }

  function ChunkEnd(data: seq<byte>, offset: nat, maxInf: nat): nat {
    if offset + maxInf < |data| then offset + maxInf else |data|
  }

  function Chunk(data: seq<byte>, offset: nat, maxInf: nat): seq<byte> {
    if offset <= |data| then data[offset..ChunkEnd(data, offset, maxInf)] else []
  }

  function ChunkBlock(h: Handler, data: seq<byte>, offset: nat, maxInf: nat): Block {
    h.I(Chunk(data, offset, maxInf), offset + maxInf < |data|)
  }

  /** `data` in pieces of at most `m` bytes; nothing is one empty piece. */
  function Chunks(data: seq<byte>, m: nat): seq<seq<byte>>
    requires m > 0
    decreases |data|
  {
    if |data| <= m then [data] else [data[..m]] + Chunks(data[m..], m)
  }

  /** The pieces are the data, as many as it takes, and full but for the last one. */
  lemma {:induction false} ChunksAreMinimal(data: seq<byte>, m: nat)
    requires m > 0
    ensures Flatten(Chunks(data, m)) == data
    ensures data != [] ==> (|Chunks(data, m)| - 1) * m < |data| <= |Chunks(data, m)| * m
    ensures forall i :: 0 <= i < |Chunks(data, m)| - 1 ==> |Chunks(data, m)[i]| == m
    ensures data != [] ==> forall i :: 0 <= i < |Chunks(data, m)| ==> 0 < |Chunks(data, m)[i]| <= m
    decreases |data|
  {
    if |data| > m {
      ChunksAreMinimal(data[m..], m);
      var rest := Chunks(data[m..], m);
      assert Chunks(data, m)[1..] == rest;
      FlattenCons(data[..m], rest);
      assert |Chunks(data, m)| * m == |rest| * m + m;
      assert (|Chunks(data, m)| - 1) * m == (|rest| - 1) * m + m;
    } else {
      assert [data][..0] == [];
    }
  }
}
