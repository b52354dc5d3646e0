/** The fixed-size blocks of which both connection buffers are chained. */
module BufferBlocks {
  const BLOCK_SIZE: int := 8192

  type Byte = b: int | 0 <= b < 256

  /** A part of a block's memory, as it is lent to the kernel or to a parser. */
  datatype Slice = Slice(base: array<Byte>, off: int, len: int)

  class BufferBlock {
    var begin: int
    var end: int
    const data: array<Byte>
    var next: BufferBlock?
    ghost const place: nat   // how many blocks of its stream come before it

    constructor (ghost place: nat)
      ensures begin == end == 0 && next == null && this.place == place
      ensures data.Length == BLOCK_SIZE && fresh(data)
    {
      begin, end, next := 0, 0, null;
      this.place := place;
      data := new Byte[BLOCK_SIZE];
    }

    /** memcpy behind the end of the block. */
    method Store(bytes: seq<Byte>)
      requires 0 <= end && end + |bytes| <= data.Length
      modifies this`end, data
      ensures end == old(end) + |bytes|
      ensures forall k :: 0 <= k < data.Length ==>
                data[k] == if old(end) <= k < end then bytes[k - old(end)] else old(data[k])
    {
      var at := end;
      forall k | 0 <= k < |bytes| {
        data[at + k] := bytes[k];
      }
      end := end + |bytes|;
    }
  }

  /** The blocks follow each other in a stream, and no two share memory. */
  ghost predicate Apart(blocks: seq<BufferBlock>, base: nat) {
    && |blocks| > 0
    && (forall i {:trigger blocks[i]} :: 0 <= i < |blocks| ==> blocks[i].place == base + i)
    && (forall i {:trigger blocks[i].data} :: 0 <= i < |blocks| ==> blocks[i].data.Length == BLOCK_SIZE)
    && (forall i, j {:trigger blocks[i].data, blocks[j].data} :: 0 <= i < j < |blocks| ==>
          blocks[i].data != blocks[j].data)
  }

  /** The blocks are linked in order and all are full but the last. */
  ghost predicate Chained(blocks: seq<BufferBlock>, base: nat)
    reads blocks`begin, blocks`end, blocks`next
  {
    && Apart(blocks, base)
    && (forall i {:trigger blocks[i]} :: 0 <= i < |blocks| ==>
          && 0 <= blocks[i].begin <= blocks[i].end <= BLOCK_SIZE
          && (i < |blocks| - 1 ==> blocks[i].end == BLOCK_SIZE))
    && (forall i {:trigger blocks[i].next} :: 0 <= i < |blocks| - 1 ==> blocks[i].next == blocks[i + 1])
    && blocks[|blocks| - 1].next == null
  }

  /** The blocks, of which `base` have been freed in front, hold the end of a flat stream of bytes. */
  ghost predicate Holds(blocks: seq<BufferBlock>, base: nat, stream: seq<Byte>)
    requires Apart(blocks, base)
    reads blocks`end, set i | 0 <= i < |blocks| :: blocks[i].data
  {
    && |stream| == (base + |blocks| - 1) * BLOCK_SIZE + blocks[|blocks| - 1].end
    && forall i, k {:trigger blocks[i].data[k]} :: 0 <= i < |blocks| && 0 <= k < blocks[i].end && k < BLOCK_SIZE ==>
         (base + i) * BLOCK_SIZE + k < |stream| && blocks[i].data[k] == stream[(base + i) * BLOCK_SIZE + k]
  }

  ghost predicate Owns(repr: set<object>, blocks: seq<BufferBlock>) {
    && (forall i {:trigger blocks[i]} :: 0 <= i < |blocks| ==> blocks[i] in repr)
    && (forall i {:trigger blocks[i].data} :: 0 <= i < |blocks| ==> blocks[i].data in repr)
  }

  /** The cursor stands in block `cur`: blocks before it are used up, blocks after it are untouched. */
  ghost predicate CursorAt(blocks: seq<BufferBlock>, cur: nat)
    reads blocks`begin
  {
    && cur < |blocks|
    && forall i {:trigger blocks[i]} :: 0 <= i < |blocks| ==>
         (i < cur ==> blocks[i].begin == BLOCK_SIZE) && (i > cur ==> blocks[i].begin == 0)
  }

  /** The blocks are chained, hold the end of the stream, and have the cursor in block `cur`. */
  ghost predicate Laid(repr: set<object>, blocks: seq<BufferBlock>, base: nat, cur: nat, stream: seq<Byte>)
    requires Owns(repr, blocks)
    reads repr
  {
    Chained(blocks, base) && Holds(blocks, base, stream) && CursorAt(blocks, cur)
  }

  /** Chain a fresh block behind a full one: the stream stays as it is. */
  method Chain(last: BufferBlock, ghost repr: set<object>,
               ghost blocks: seq<BufferBlock>, ghost base: nat, ghost cur: nat, ghost stream: seq<Byte>)
    returns (b: BufferBlock)
    requires Owns(repr, blocks) && Laid(repr, blocks, base, cur, stream)
    requires last == blocks[|blocks| - 1] && last.end == BLOCK_SIZE
    modifies last`next
    ensures fresh(b) && fresh(b.data) && b.begin == b.end == 0
    ensures Owns(repr + {b, b.data}, blocks + [b]) && Laid(repr + {b, b.data}, blocks + [b], base, cur, stream)
  {
    b := new BufferBlock(base + |blocks|);
    last.next := b;
  }

  /** Copy bytes behind the last block's end: the stream grows by them. */
  method Store(last: BufferBlock, bytes: seq<Byte>, ghost repr: set<object>,
               ghost blocks: seq<BufferBlock>, ghost base: nat, ghost cur: nat, ghost stream: seq<Byte>)
    requires Owns(repr, blocks) && Laid(repr, blocks, base, cur, stream)
    requires last == blocks[|blocks| - 1] && last.end + |bytes| <= BLOCK_SIZE
    modifies last`end, last.data
    ensures last.end == old(last.end) + |bytes|
    ensures Laid(repr, blocks, base, cur, stream + bytes)
  {
    last.Store(bytes);
  }

  /** Store bytes in the free rest of the last block, behind `at` bytes stored there before. */
  method StoreBehind(last: BufferBlock, at: nat, bytes: seq<Byte>, ghost repr: set<object>,
                     ghost blocks: seq<BufferBlock>, ghost base: nat, ghost cur: nat, ghost stream: seq<Byte>)
    requires Owns(repr, blocks) && Laid(repr, blocks, base, cur, stream)
    requires last == blocks[|blocks| - 1] && last.end + at + |bytes| <= BLOCK_SIZE
    modifies last.data
    ensures Laid(repr, blocks, base, cur, stream)
    ensures last.data[last.end..last.end + (at + |bytes|)] == old(last.data[last.end..last.end + at]) + bytes
  {
    var data, off := last.data, last.end + at;
    forall k | 0 <= k < |bytes| {
      data[off + k] := bytes[k];
    }
  }

  /** Count the next `n` bytes of the last block as filled: the stream grows by whatever they hold. */
  method Accept(last: BufferBlock, n: nat, ghost repr: set<object>,
                ghost blocks: seq<BufferBlock>, ghost base: nat, ghost cur: nat, ghost stream: seq<Byte>)
    requires Owns(repr, blocks) && Laid(repr, blocks, base, cur, stream)
    requires last == blocks[|blocks| - 1] && last.end + n <= BLOCK_SIZE
    modifies last`end
    ensures last.end == old(last.end) + n
    ensures Laid(repr, blocks, base, cur, stream + old(last.data[last.end..last.end + n]))
  {
    last.end := last.end + n;
  }

  /** Take the last `n` bytes of the last block back. */
  method Cut(last: BufferBlock, n: nat, ghost repr: set<object>,
             ghost blocks: seq<BufferBlock>, ghost base: nat, ghost cur: nat, ghost stream: seq<Byte>)
    requires Owns(repr, blocks) && Laid(repr, blocks, base, cur, stream)
    requires last == blocks[|blocks| - 1] && n <= last.end
    modifies last`end
    ensures last.end == old(last.end) - n && n <= |stream|
    ensures Laid(repr, blocks, base, cur, stream[..|stream| - n]) <==> last.begin <= last.end
  {
    last.end := last.end - n;
  }

  /** The stream with the bytes from position `p` on replaced. */
  ghost function Patch(stream: seq<Byte>, p: nat, bytes: seq<Byte>): seq<Byte>
    requires p + |bytes| <= |stream|
  {
    stream[..p] + bytes + stream[p + |bytes|..]
  }

  /** Overwrite bytes of the last block in place: the stream changes at the same spot. */
  method Overwrite(last: BufferBlock, at: nat, bytes: seq<Byte>, ghost repr: set<object>,
                   ghost blocks: seq<BufferBlock>, ghost base: nat, ghost cur: nat, ghost stream: seq<Byte>)
    requires Owns(repr, blocks) && Laid(repr, blocks, base, cur, stream)
    requires last == blocks[|blocks| - 1] && at + |bytes| <= last.end
    modifies last.data
    ensures last.end - at <= |stream|
    ensures Laid(repr, blocks, base, cur, Patch(stream, |stream| - (last.end - at), bytes))
  {
    var data := last.data;
    forall k | 0 <= k < |bytes| {
      data[at + k] := bytes[k];
    }
  }

  /** Move over bytes of the cursor's block, forwards or backwards. A block does not begin before its data. */
  method Pass(b: BufferBlock, n: int, ghost repr: set<object>,
              ghost blocks: seq<BufferBlock>, ghost base: nat, ghost cur: nat, ghost stream: seq<Byte>)
    requires Owns(repr, blocks) && Laid(repr, blocks, base, cur, stream) && b == blocks[cur] && b.begin + n <= b.end
    modifies b`begin
    ensures b.begin == old(b.begin) + n
    ensures Laid(repr, blocks, base, cur, stream) <==> 0 <= b.begin
  {
    b.begin := b.begin + n;
  }

  /** At the end of a full block the cursor stands as well before the next one. */
  lemma CursorNext(repr: set<object>, blocks: seq<BufferBlock>, base: nat, cur: nat, stream: seq<Byte>)
    requires Owns(repr, blocks) && Laid(repr, blocks, base, cur, stream)
    requires blocks[cur].begin == BLOCK_SIZE && blocks[cur].next != null
    ensures cur + 1 < |blocks| && blocks[cur].next == blocks[cur + 1]
    ensures Laid(repr, blocks, base, cur + 1, stream)
  {
  }

  /** Without a first block that lies before the cursor, the chain still holds the end of the stream. */
  lemma FreeFirst(repr: set<object>, blocks: seq<BufferBlock>, base: nat, cur: nat, stream: seq<Byte>)
    requires Owns(repr, blocks) && Laid(repr, blocks, base, cur, stream) && cur > 0
    ensures blocks[0].next == blocks[1]
    ensures Owns(repr, blocks[1..]) && Laid(repr, blocks[1..], base + 1, cur - 1, stream)
  {
    var rest := blocks[1..];
    assert forall i :: 0 <= i < |rest| ==> rest[i] == blocks[i + 1];
    forall i, k | 0 <= i < |rest| && 0 <= k < rest[i].end
      ensures rest[i].data[k] == stream[(base + 1 + i) * BLOCK_SIZE + k]
    {
      assert rest[i] == blocks[i + 1];
    }
  }

  /** A slice of a block is a slice of the stream. */
  lemma SliceOfStream(repr: set<object>, blocks: seq<BufferBlock>, base: nat, cur: nat, stream: seq<Byte>,
                      i: nat, lo: nat, hi: nat)
    requires Owns(repr, blocks) && Laid(repr, blocks, base, cur, stream) && i < |blocks| && lo <= hi <= blocks[i].end
    ensures (base + i) * BLOCK_SIZE + hi <= |stream|
    ensures blocks[i].data[lo..hi] == stream[(base + i) * BLOCK_SIZE + lo..(base + i) * BLOCK_SIZE + hi]
  {
    var bytes := blocks[i].data[lo..hi];
    forall k | 0 <= k < |bytes|
      ensures bytes[k] == stream[(base + i) * BLOCK_SIZE + lo + k]
    {
      assert bytes[k] == blocks[i].data[lo + k];
    }
  }
}
