/** Bytes, results and errors shared by every layer of the type A stack. */
module Wire {

  type byte = bv8
  type u8 = n: int | 0 <= n < 0x100
  type u16 = n: int | 0 <= n < 0x1_0000

  datatype Option<+T> = None | Some(value: T)

  /** The bound a peer ran past. */
  datatype Limit =
    | Frames | Retransmissions | ConsecutiveWtx | TotalWtx | WtxValue | ChainLength | FrameSize

  datatype TypeAError =
    | InvalidLength
    | UnknownOpcode(code: byte)
    | InvalidCrc(lsb: byte, msb: byte)
    | InvalidBcc
    | UnknownSel
    | InvalidPcb
    | BufferFull
    | LimitExceeded(limit: Limit)
    | Other

  /** Section 6.1.5 of ISO/IEC 14443-3: only standard frames carry a CRC. */
  datatype Frame = Short(data: seq<byte>) | Standard(data: seq<byte>) | BitOriented(data: seq<byte>)

  datatype Result<+T, +E> = Ok(value: T) | Err(error: E) {
    predicate IsFailure() {
      Err?
    }

    function PropagateFailure<U>(): Result<U, E>
      requires Err?
    {
      Err(error)
    }

    function Extract(): T
      requires Ok?
    {
      value
    }
  }

  /** What a transceiver will deliver, in order; `None` is a failure. */
  type Script = seq<Option<seq<byte>>>

  function Scripted(script: Script, i: nat): Option<seq<byte>> {
    if i < |script| then script[i] else None
  }

  function Unread(script: Script, n: nat): Script {
    if n <= |script| then script[n..] else []
  }

  /** The data of a chain of chunks. */
  function Flatten<T>(chunks: seq<seq<T>>): seq<T> {
    if chunks == [] then [] else Flatten(chunks[..|chunks| - 1]) + chunks[|chunks| - 1]
  }

  lemma FlattenSnoc<T>(chunks: seq<seq<T>>, last: seq<T>)
    ensures Flatten(chunks + [last]) == Flatten(chunks) + last
  {
    assert (chunks + [last])[..|chunks|] == chunks;
  }

  lemma {:induction false} FlattenCons<T>(first: seq<T>, chunks: seq<seq<T>>)
    ensures Flatten([first] + chunks) == first + Flatten(chunks)
  {
    if chunks == [] {
      assert [first] + chunks == [first];
      assert [first][..0] == [];
    } else {
      var init := chunks[..|chunks| - 1];
      assert ([first] + chunks)[..|chunks|] == [first] + init;
      FlattenCons(first, init);
    }
  }
}
