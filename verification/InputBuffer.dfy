/** The read buffer of a connection: a flat stream of received bytes with a cursor, kept in a chain
    of blocks. */
module InputBuffers {
  import opened BufferBlocks

  const INT32_MAX: int := 0x7FFF_FFFF
  /** sizeof(uint32_t) */
  const WORD: nat := 4

  function Min(a: int, b: int): int { if a < b then a else b }

  lemma Adjacent(s: seq<Byte>, i: nat, j: nat, k: nat)
    requires i <= j <= k <= |s|
    ensures s[i..j] + s[j..k] == s[i..k]
  {
  }

  lemma NothingBefore(none: seq<Byte>, s: seq<Byte>)
    requires |none| == 0
    ensures none + s == s
  {
  }

  class InputBuffer {
    var firstBlock: BufferBlock
    var curBlock: BufferBlock
    var lastBlock: BufferBlock
    var readBytes: int
    var consumedBytes: int
    var limit: int

    ghost var blocks: seq<BufferBlock>   // from firstBlock to lastBlock
    ghost var base: nat                  // blocks freed in front of firstBlock
    ghost var cur: nat                   // position of curBlock in blocks
    ghost var stream: seq<Byte>          // all bytes ever received
    ghost var repr: set<object>

    /** The blocks hold the stream, and the cursor and the counters agree. */
    ghost predicate Layout()
      reads this, repr
    {
      && this !in repr && Owns(repr, blocks) && Laid(repr, blocks, base, cur, stream)
      && firstBlock == blocks[0] && curBlock == blocks[cur] && lastBlock == blocks[|blocks| - 1]
      && consumedBytes == (base + cur) * BLOCK_SIZE + curBlock.begin
      && readBytes == |stream| - consumedBytes
    }

    /** Between operations, the last block has room and the cursor is not at the end of a full block. */
    ghost predicate Valid()
      reads this, repr
    {
      Layout() && lastBlock.end < BLOCK_SIZE && curBlock.begin < BLOCK_SIZE
    }

    constructor ()
      ensures Valid() && fresh(repr) && stream == [] && consumedBytes == 0 && limit == INT32_MAX
    {
      var b := new BufferBlock(0);
      firstBlock, curBlock, lastBlock, readBytes, consumedBytes, limit := b, b, b, 0, 0, INT32_MAX;
      blocks, base, cur, stream, repr := [b], 0, 0, [], {b, b.data};
    }

    /** There is always room to read into. */
    method GetBuffer() returns (room: Slice)
      requires Valid()
      ensures room.base == lastBlock.data && room.off == lastBlock.end && room.len > 0
      ensures room.off + room.len == BLOCK_SIZE
    {
      room := Slice(lastBlock.data, lastBlock.end, BLOCK_SIZE - lastBlock.end);
    }

    /** The first `n` bytes of the room, as the kernel has left them. */
    ghost function Stored(n: nat): seq<Byte>
      requires Valid() && n <= BLOCK_SIZE - lastBlock.end
      reads this, repr
    {
      lastBlock.data[lastBlock.end..lastBlock.end + n]
    }

    /** The kernel stores into the room that `GetBuffer` lent, behind `at` bytes it has stored before; the
        buffer does not know of them yet. */
    method KernelStore(at: nat, bytes: seq<Byte>)
      requires Valid() && at + |bytes| <= BLOCK_SIZE - lastBlock.end
      modifies lastBlock.data
      ensures Valid()
      ensures Stored(at + |bytes|) == old(Stored(at)) + bytes
    {
      StoreBehind(lastBlock, at, bytes, repr, blocks, base, cur, stream);
    }

    /** Chain a fresh block behind a full one. */
    method Grow()
      requires Layout() && lastBlock.end == BLOCK_SIZE && curBlock.begin < BLOCK_SIZE
      modifies this, lastBlock`next
      ensures Valid() && fresh(repr - old(repr)) && stream == old(stream)
      ensures consumedBytes == old(consumedBytes) && limit == old(limit)
    {
      var b := Chain(lastBlock, repr, blocks, base, cur, stream);
      lastBlock := b;
      blocks, repr := blocks + [b], repr + {b, b.data};
    }

    /** Count bytes of the room as received. */
    method Absorb(nread: nat)
      requires Valid() && nread <= BLOCK_SIZE - lastBlock.end
      modifies this`stream, this`readBytes, lastBlock`end
      ensures Layout() && curBlock.begin < BLOCK_SIZE && stream == old(stream) + old(Stored(nread))
    {
      ghost var before := stream;
      stream := stream + Stored(nread);
      readBytes := readBytes + nread;
      Accept(lastBlock, nread, repr, blocks, base, cur, before);
    }

    /** Takes the bytes the kernel has stored into the stream. */
    method RecvAdd(nread: int)
      requires Valid() && nread <= BLOCK_SIZE - lastBlock.end
      modifies this, repr
      ensures Valid() && fresh(repr - old(repr)) && consumedBytes == old(consumedBytes) && limit == old(limit)
      ensures stream == old(stream) + if nread <= 0 then [] else old(Stored(nread))
    {
      if nread > 0 {
        Absorb(nread);
        if lastBlock.end == BLOCK_SIZE {
          Grow();
        }
      }
    }

    /** Store and take in: the stream grows by `bytes`. */
    method Receive(bytes: seq<Byte>)
      requires Valid() && |bytes| <= BLOCK_SIZE - lastBlock.end
      modifies this, repr
      ensures Valid() && fresh(repr - old(repr)) && consumedBytes == old(consumedBytes) && limit == old(limit)
      ensures stream == old(stream) + bytes
    {
      NothingBefore(Stored(0), bytes);
      KernelStore(0, bytes);
      RecvAdd(|bytes|);
    }

    /** The rest of the current block is empty only if nothing is unread, and it is the block's full rest if
        more bytes follow. */
    lemma FrontSize()
      requires Valid()
      ensures 0 <= curBlock.begin <= curBlock.end && curBlock.end - curBlock.begin <= readBytes
      ensures curBlock.begin == curBlock.end <==> readBytes == 0
      ensures curBlock.end - curBlock.begin < readBytes ==> curBlock.end == BLOCK_SIZE && curBlock.next != null
    {
    }

    /** The rest of the current block is the front of the unread bytes. */
    lemma Front(k: nat)
      requires Valid() && k <= curBlock.end - curBlock.begin
      ensures k <= readBytes
      ensures curBlock.data[curBlock.begin..curBlock.begin + k] == stream[consumedBytes..consumedBytes + k]
    {
      SliceOfStream(repr, blocks, base, cur, stream, cur, curBlock.begin, curBlock.begin + k);
    }

    /** The cursor's place in its block is its place in the stream, modulo the block size. */
    lemma CursorOffset()
      requires Valid()
      ensures 0 <= curBlock.begin == consumedBytes % BLOCK_SIZE
    {
    }

    /** Move the cursor from the end of a full block to the next one. */
    method StepOver()
      requires Layout() && lastBlock.end < BLOCK_SIZE && curBlock.begin == BLOCK_SIZE
      modifies this`curBlock, this`cur
      ensures Valid()
    {
      CursorNext(repr, blocks, base, cur, stream);
      curBlock := curBlock.next;
      cur := cur + 1;
    }

    /** Move the cursor within the current block. Moving it before the block's data breaks the buffer. */
    method Move(k: int)
      requires Valid() && curBlock.begin + k <= curBlock.end
      modifies this`readBytes, this`consumedBytes, curBlock`begin
      ensures consumedBytes == old(consumedBytes) + k && curBlock.begin == old(curBlock.begin) + k
      ensures Layout() <==> 0 <= curBlock.begin
    {
      consumedBytes := consumedBytes + k;
      readBytes := readBytes - k;
      Pass(curBlock, k, repr, blocks, base, cur, stream);
    }

    /** Move the cursor within the current block, and on to the next one at its end. */
    method Advance(k: nat)
      requires Valid() && k <= curBlock.end - curBlock.begin
      modifies this`curBlock, this`cur, this`readBytes, this`consumedBytes, curBlock`begin
      ensures Valid() && consumedBytes == old(consumedBytes) + k
    {
      Move(k);
      if curBlock.begin == BLOCK_SIZE && curBlock.next != null {
        StepOver();
      }
    }

    /** Copy bytes out of the current block and move over them. */
    method Take(k: nat) returns (bytes: seq<Byte>)
      requires Valid() && k <= curBlock.end - curBlock.begin
      modifies this`curBlock, this`cur, this`readBytes, this`consumedBytes, curBlock`begin
      ensures Valid() && consumedBytes == old(consumedBytes) + k
      ensures consumedBytes <= |stream| && bytes == stream[old(consumedBytes)..consumedBytes]
    {
      Front(k);
      bytes := curBlock.data[curBlock.begin..curBlock.begin + k];
      Advance(k);
    }

    /** Take the rest of the current block, with more bytes behind it. */
    method TakeRest() returns (head: seq<Byte>)
      requires Valid() && curBlock.end - curBlock.begin < readBytes
      modifies this`curBlock, this`cur, this`readBytes, this`consumedBytes, curBlock`begin
      ensures Valid() && consumedBytes == old(consumedBytes + curBlock.end - curBlock.begin) < |stream|
      ensures head == stream[old(consumedBytes)..consumedBytes]
      ensures curBlock.end - curBlock.begin >= Min(readBytes, WORD)
    {
      FrontSize();
      head := Take(curBlock.end - curBlock.begin);
      FrontSize();
    }

    /** The word lies across two blocks: its first part reaches the variable, the rest does not. */
    method FetchSplit(prior: seq<Byte>) returns (value: seq<Byte>, stray: seq<Byte>)
      requires Valid() && |prior| == WORD && curBlock.end - curBlock.begin < WORD <= readBytes
      modifies this, repr
      ensures Valid() && unchanged(`stream, `limit, `repr) && consumedBytes == old(consumedBytes) + WORD
      ensures var mid := old(consumedBytes + curBlock.end - curBlock.begin);
        && old(consumedBytes) <= mid <= consumedBytes <= |stream|
        && value == stream[old(consumedBytes)..mid] + prior[mid - old(consumedBytes)..]
        && stray == stream[mid..consumedBytes]
    {
      var copied := curBlock.end - curBlock.begin;
      var head := TakeRest();
      value := head + prior[copied..];
      stray := Take(WORD - copied);
    }

    /** Reads four bytes into a variable that held `prior`. The cursor moves over the next word in every
        case, but only the `copied` bytes up to the end of the current block reach the variable: the
        others are stored past it. */
    method FetchUint32(prior: seq<Byte>) returns (ok: bool, copied: nat, value: seq<Byte>, stray: seq<Byte>)
      requires Valid() && |prior| == WORD
      modifies this, repr
      ensures Valid() && unchanged(`stream, `limit, `repr)
      ensures ok <==> old(readBytes) >= WORD
      ensures !ok ==> consumedBytes == old(consumedBytes) && value == prior && stray == []
      ensures ok ==> consumedBytes == old(consumedBytes) + WORD && copied == Min(BLOCK_SIZE - old(curBlock.begin), WORD)
      ensures ok ==> value == stream[consumedBytes - WORD..consumedBytes - WORD + copied] + prior[copied..]
      ensures ok ==> stray == stream[consumedBytes - WORD + copied..consumedBytes]
    {
      ok, copied, value, stray := false, 0, prior, [];
      if WORD > readBytes {
        return;
      }
      ok := true;
      copied := Min(curBlock.end - curBlock.begin, WORD);
      assert copied == Min(BLOCK_SIZE - curBlock.begin, WORD) by {
        FrontSize();
      }
      if copied < WORD {
        value, stray := FetchSplit(prior);
      } else {
        value := Take(WORD);
      }
    }

    method PushLimit(newLimit: int)
      modifies this`limit
      ensures limit == newLimit && (Valid() <==> old(Valid()))
    {
      limit := newLimit;
    }

    method PopLimit()
      modifies this`limit
      ensures limit == INT32_MAX && (Valid() <==> old(Valid()))
    {
      limit := INT32_MAX;
    }

    /** Hands out the front of the unread bytes, at most as many as the limit allows. */
    method NextWithin() returns (data: seq<Byte>)
      requires Valid() && limit > 0 && readBytes > 0
      modifies this`curBlock, this`cur, this`readBytes, this`consumedBytes, this`limit, curBlock`begin
      ensures Valid() && 0 < |data| == Min(old(curBlock.end - curBlock.begin), old(limit))
      ensures consumedBytes == old(consumedBytes) + |data| <= |stream|
      ensures data == stream[old(consumedBytes)..consumedBytes]
      ensures limit == old(limit) - if old(limit) == INT32_MAX then 0 else |data|
    {
      assert curBlock.begin < curBlock.end by {
        FrontSize();
      }
      var size := Min(curBlock.end - curBlock.begin, limit);
      limit := limit - if limit == INT32_MAX then 0 else size;
      data := Take(size);
    }

    /** With a negative limit the cursor moves back by it. */
    method NextBelow()
      requires Valid() && limit < 0
      modifies this`readBytes, this`consumedBytes, this`limit, curBlock`begin
      ensures consumedBytes == old(consumedBytes + limit) && limit == 0
      ensures Valid() <==> old(curBlock.begin + limit) >= 0
    {
      var size := limit;
      limit := limit - size;
      Move(size);
    }

    /** Fails if and only if nothing is unread or the limit is used up; otherwise hands out the front of the
        unread bytes, at most as many as the limit allows. With a negative limit it reports a negative size
        and moves the cursor back, which breaks the buffer unless the current block reaches back that far. */
    method Next() returns (ok: bool, size: int, data: seq<Byte>)
      requires Valid()
      modifies this`curBlock, this`cur, this`readBytes, this`consumedBytes, this`limit, curBlock`begin
      ensures ok <==> old(readBytes) > 0 && old(limit) != 0
      ensures !ok ==> unchanged(this) && Valid() && size == 0
      ensures consumedBytes == old(consumedBytes) + size
      ensures old(limit) >= 0 ==> Valid() && 0 <= limit && size == |data| && (ok <==> data != [])
      ensures old(limit) >= 0 ==> consumedBytes <= |stream| && data == stream[old(consumedBytes)..consumedBytes]
      ensures ok ==> limit == old(limit) - if old(limit) == INT32_MAX then 0 else size
      ensures ok ==> size == Min(old(curBlock.end - curBlock.begin), old(limit))
      ensures ok && old(limit) < 0 ==> size == old(limit) && (Valid() <==> old(curBlock.begin) + size >= 0)
    {
      ok, size, data := curBlock.begin != curBlock.end && limit != 0, 0, [];
      assert curBlock.begin != curBlock.end <==> readBytes > 0 by {
        FrontSize();
      }
      if ok && limit > 0 {
        data := NextWithin();
        size := |data|;
      } else if ok {
        size := limit;
        NextBelow();
      }
    }

    /** One call of `next` with a limit that is not negative. */
    method NextPart(ghost from: nat, ghost bytes: seq<Byte>) returns (more: bool, data: seq<Byte>)
      requires Valid() && limit >= 0 && from <= consumedBytes <= |stream| && bytes == stream[from..consumedBytes]
      modifies this, repr
      ensures Valid() && unchanged(`stream, `repr) && 0 <= limit
      ensures consumedBytes == old(consumedBytes) + |data| <= |stream| && bytes + data == stream[from..consumedBytes]
      ensures limit == old(limit) - if old(limit) == INT32_MAX then 0 else |data|
      ensures if more then data != [] else data == [] && (readBytes == 0 || limit == 0)
    {
      var size;
      more, size, data := Next();
      Adjacent(stream, from, old(consumedBytes), consumedBytes);
    }

    /** Calls `next` until it fails: all unread bytes up to the limit, across any number of blocks. */
    method Drain() returns (bytes: seq<Byte>)
      requires Valid() && 0 <= limit <= INT32_MAX
      modifies this, repr
      ensures Valid() && unchanged(`stream, `repr)
      ensures |bytes| == if old(limit) == INT32_MAX then old(readBytes) else Min(old(limit), old(readBytes))
      ensures consumedBytes == old(consumedBytes) + |bytes| <= |stream|
      ensures bytes == stream[old(consumedBytes)..consumedBytes]
    {
      bytes := [];
      var more := true;
      while more
        invariant Valid() && unchanged(`stream, `repr) && 0 <= limit
        invariant consumedBytes == old(consumedBytes) + |bytes| <= |stream|
        invariant bytes == stream[old(consumedBytes)..consumedBytes]
        invariant limit == old(limit) - if old(limit) == INT32_MAX then 0 else |bytes|
        invariant !more ==> readBytes == 0 || limit == 0
        decreases readBytes, more
      {
        var data;
        more, data := NextPart(old(consumedBytes), bytes);
        bytes := bytes + data;
      }
    }

    /** What a message parser does: push a limit, call `next` until it fails, pop the limit. It gets
        exactly the bytes up to the limit and leaves the rest of the stream. */
    method ReadLimited(length: nat) returns (bytes: seq<Byte>)
      requires Valid() && length <= INT32_MAX
      modifies this, repr
      ensures Valid() && unchanged(`stream, `repr) && limit == INT32_MAX
      ensures |bytes| == if length == INT32_MAX then old(readBytes) else Min(length, old(readBytes))
      ensures consumedBytes == old(consumedBytes) + |bytes| <= |stream|
      ensures bytes == stream[old(consumedBytes)..consumedBytes]
    {
      PushLimit(length);
      bytes := Drain();
      PopLimit();
    }

    /** Free the first block, which lies wholly before the cursor. */
    method FreeOne()
      requires Valid() && cur > 0
      modifies this`firstBlock, this`blocks, this`base, this`cur
      ensures Valid() && base == old(base) + 1 && cur == old(cur) - 1
    {
      FreeFirst(repr, blocks, base, cur, stream);
      firstBlock := firstBlock.next;
      blocks, base, cur := blocks[1..], base + 1, cur - 1;
    }

    /** Free the blocks that lie wholly before the cursor. */
    method FreeBefore()
      requires Valid()
      modifies this`firstBlock, this`blocks, this`base, this`cur
      ensures Valid() && cur == 0 && base == old(base + cur)
    {
      while firstBlock != curBlock
        invariant Valid() && base + cur == old(base + cur)
        decreases cur
      {
        FreeOne();
      }
    }

    /** Move the cursor back within the current block, and raise the limit again. */
    method Retreat(n: int)
      requires Valid() && 0 <= n <= curBlock.begin
      modifies this`readBytes, this`consumedBytes, this`limit, curBlock`begin
      ensures Valid() && consumedBytes == old(consumedBytes) - n
      ensures limit == old(limit) + if old(limit) == INT32_MAX then 0 else n
    {
      limit := limit + if limit == INT32_MAX then 0 else n;
      Move(-n);
    }

    /** Moves the cursor back by at most what the current block allows, and frees the blocks that lie
        wholly before it. */
    method BackUp(n: nat)
      requires Valid()
      requires limit == INT32_MAX || limit + Min(n, curBlock.begin) <= INT32_MAX
      modifies this, repr
      ensures Valid() && unchanged(`stream, `repr, `curBlock)
      ensures consumedBytes == old(consumedBytes) - Min(n, old(consumedBytes) % BLOCK_SIZE)
      ensures limit == if old(limit) == INT32_MAX then INT32_MAX else old(limit + consumedBytes) - consumedBytes
      ensures cur == 0 && base == old(base + cur) && base * BLOCK_SIZE <= consumedBytes
    {
      CursorOffset();
      Retreat(Min(n, curBlock.begin));
      FreeBefore();
    }

    /** One round of `skip`. It makes progress exactly when something is unread. */
    method SkipRound(n: int) returns (left: int)
      requires Valid() && n > 0
      modifies this`curBlock, this`cur, this`readBytes, this`consumedBytes, curBlock`begin
      ensures Valid() && 0 <= left <= n && consumedBytes - old(consumedBytes) == n - left
      ensures left < n <==> old(readBytes) > 0
    {
      FrontSize();
      var toSkip := Min(n, curBlock.end - curBlock.begin);
      Advance(toSkip);
      left := n - toSkip;
    }

    /** The loop of `skip`. */
    method SkipLoop(n: nat) returns (ends: bool)
      requires Valid()
      modifies this, repr
      ensures Valid() && unchanged(`stream, `repr, `limit)
      ensures ends <==> n <= old(readBytes)
      ensures consumedBytes == old(consumedBytes) + Min(n, old(readBytes))
    {
      var left := n;
      while left > 0
        invariant Valid() && unchanged(`stream, `repr, `limit)
        invariant 0 <= left <= n && consumedBytes == old(consumedBytes) + n - left
      {
        var before := left;
        left := SkipRound(left);
        if left == before {
          return false;
        }
      }
      ends := true;
    }

    /** Skips `n` bytes, if at least `n` bytes were consumed before; otherwise it refuses. With fewer than
        `n` bytes unread it comes to a state that its loop does not leave: `ends` is false there. */
    method Skip(n: int) returns (ok: bool, ends: bool)
      requires Valid()
      modifies this, repr
      ensures Valid() && unchanged(`stream, `repr, `limit)
      ensures ok <==> n <= old(consumedBytes)
      ensures ends <==> !ok || n <= old(readBytes)
      ensures consumedBytes == old(consumedBytes) + if !ok || n <= 0 then 0 else Min(n, old(readBytes))
    {
      ok, ends := n <= consumedBytes, true;
      if ok && n > 0 {
        ends := SkipLoop(n);
      }
    }
  }
}
