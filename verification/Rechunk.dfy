/** The microphone loop of the Android client's Worker.java: reads of any length become blocks of exactly ten
    milliseconds, each sent under the next serial number. */
module Rechunk {
  import opened Wire
  import opened Framing
  import opened Sequences

  const BLOCK_BYTES: int := 320

  datatype Chunked = Chunked(blocks: seq<Bytes>, rest: Bytes)

  /** The blocks a byte stream holds, and the bytes left over. */
  function Chunk(b: Bytes): Chunked
    decreases |b|
  {
    if |b| < BLOCK_BYTES then Chunked([], b)
    else
      var later := Chunk(b[BLOCK_BYTES..]);
      Chunked([b[..BLOCK_BYTES]] + later.blocks, later.rest)
  }

  lemma ChunkFirst(block: Bytes, b: Bytes)
    requires |block| == BLOCK_BYTES
    ensures Chunk(block + b) == Chunked([block] + Chunk(b).blocks, Chunk(b).rest)
  {
    assert (block + b)[..BLOCK_BYTES] == block && (block + b)[BLOCK_BYTES..] == b;
  }

  /** Every block has the full length, less than a block is left over, and together they are the stream. */
  lemma {:induction false} ChunkConserves(b: Bytes)
    ensures Concat(Chunk(b).blocks) + Chunk(b).rest == b
    ensures |Chunk(b).rest| < 320
    ensures forall i :: 0 <= i < |Chunk(b).blocks| ==> |Chunk(b).blocks[i]| == 320
    decreases |b|
  {
    if |b| >= BLOCK_BYTES {
      var later := Chunk(b[BLOCK_BYTES..]);
      ChunkConserves(b[BLOCK_BYTES..]);
      ConcatCons(b[..BLOCK_BYTES], later.blocks);
      Associative(b[..BLOCK_BYTES], Concat(later.blocks), later.rest);
    }
  }

  /** The blocks do not depend on how the stream was split into reads. */
  lemma {:induction false} ChunkSplit(a: Bytes, b: Bytes)
    ensures Chunk(a + b) == Chunked(Chunk(a).blocks + Chunk(Chunk(a).rest + b).blocks, Chunk(Chunk(a).rest + b).rest)
    decreases |a|
  {
    if |a| >= BLOCK_BYTES {
      var block, a1 := a[..BLOCK_BYTES], a[BLOCK_BYTES..];
      assert a == block + a1 && a + b == block + (a1 + b);
      ChunkFirst(block, a1);
      ChunkFirst(block, a1 + b);
      ChunkSplit(a1, b);
      Associative([block], Chunk(a1).blocks, Chunk(Chunk(a1).rest + b).blocks);
    }
  }

  datatype SentBlock = SentBlock(serial: U32, block: Bytes)

  function Numbered(first: U32, blocks: seq<Bytes>): seq<SentBlock> {
    seq(|blocks|, i requires 0 <= i < |blocks| => SentBlock((first + i) % 0x1_0000_0000, blocks[i]))
  }

  lemma NumberedSnoc(blocks: seq<Bytes>, block: Bytes)
    ensures Numbered(0, blocks + [block]) == Numbered(0, blocks) + [SentBlock(|blocks| % 0x1_0000_0000, block)]
  {
  }

  class Worker {
    var pcmBuffer: Bytes
    var audioSn: U32
    var sent: seq<SentBlock>
    ghost var captured: Bytes

    constructor ()
      ensures Valid() && pcmBuffer == [] && captured == [] && sent == []
    {
      pcmBuffer, audioSn, sent, captured := [], 0, [], [];
    }

    /** Everything captured has been sent in numbered blocks, but for the bytes still waiting in the buffer. */
    ghost predicate Valid()
      reads this
    {
      && sent == Numbered(0, Chunk(captured).blocks)
      && pcmBuffer == Chunk(captured).rest
      && audioSn == |sent| % 0x1_0000_0000
    }

    /** So what was sent, block after block, and then the buffer are what was captured: blocks of 320 bytes, numbered from 0
        on, and less than a block waiting. */
    lemma EverythingIsSent() returns (blocks: seq<Bytes>)
      requires Valid()
      ensures Concat(blocks) + pcmBuffer == captured && |pcmBuffer| < 320
      ensures |blocks| == |sent|
      ensures forall i :: 0 <= i < |blocks| ==>
                |blocks[i]| == 320 && sent[i].block == blocks[i] && sent[i].serial == i % 0x1_0000_0000
    {
      blocks := Chunk(captured).blocks;
      ChunkConserves(captured);
    }

    /** One read of the recorder into the reused buffer; a result that is not positive is an error or an empty read. */
    method OnRead(buffer: array<Byte>, length: int)
      requires Valid() && length <= buffer.Length
      modifies this
      ensures Valid() && captured == old(captured) + if length <= 0 then [] else buffer[..length]
    {
      if length <= 0 {
        assert captured + [] == captured;
        return;
      }
      ghost var before, data := captured, buffer[..length];
      ghost var blocks := Chunk(before).blocks;
      ChunkSplit(before, data);
      captured := captured + data;
      pcmBuffer := pcmBuffer + buffer[..length];
      while |pcmBuffer| >= BLOCK_BYTES
        invariant captured == before + data
        invariant Chunk(captured) == Chunked(blocks + Chunk(pcmBuffer).blocks, Chunk(pcmBuffer).rest)
        invariant sent == Numbered(0, blocks) && audioSn == |sent| % 0x1_0000_0000
        decreases |pcmBuffer|
      {
        ghost var block, later := pcmBuffer[..BLOCK_BYTES], Chunk(pcmBuffer[BLOCK_BYTES..]);
        Associative(blocks, [block], later.blocks);
        NumberedSnoc(blocks, block);
        SuccessorOfModulo(|sent|);
        SendBlock();
        blocks := blocks + [block];
      }
      assert blocks + [] == blocks;
    }

    /** Takes the first ten milliseconds out of the buffer and sends them. */
    method SendBlock()
      requires |pcmBuffer| >= BLOCK_BYTES
      modifies this`pcmBuffer, this`sent, this`audioSn
      ensures sent == old(sent) + [SentBlock(old(audioSn), old(pcmBuffer[..BLOCK_BYTES]))]
      ensures pcmBuffer == old(pcmBuffer[BLOCK_BYTES..]) && audioSn == Successor(old(audioSn))
    {
      sent := sent + [SentBlock(audioSn, pcmBuffer[..BLOCK_BYTES])];
      audioSn := Successor(audioSn);
      pcmBuffer := pcmBuffer[BLOCK_BYTES..];
    }
  }
}
