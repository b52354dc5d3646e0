/** The write buffer of a connection: a queue of bytes kept in a chain of blocks. */
module OutputBuffers {
  import opened BufferBlocks

  const IOV_MAX: nat := 1024

  function Total(iovs: seq<Slice>): int {
    if iovs == [] then 0 else Total(iovs[..|iovs| - 1]) + iovs[|iovs| - 1].len
  }

  ghost predicate InBlocks(iovs: seq<Slice>) {
    forall i {:trigger iovs[i]} :: 0 <= i < |iovs| ==>
      0 <= iovs[i].off && 0 <= iovs[i].len && iovs[i].off + iovs[i].len <= iovs[i].base.Length
  }

  /** The bytes that a list of iovecs denotes in memory. */
  ghost function Gather(iovs: seq<Slice>): seq<Byte>
    requires InBlocks(iovs)
    reads set i | 0 <= i < |iovs| :: iovs[i].base
  {
    if iovs == [] then []
    else
      var last := iovs[|iovs| - 1];
      Gather(iovs[..|iovs| - 1]) + last.base[last.off..last.off + last.len]
  }

  lemma LongerPrefix(s: seq<Byte>, at: nat, m: nat, n: nat)
    requires at + m <= at + n <= |s|
    ensures s[at..][..m] + s[at + m..at + n] == s[at..][..n]
  {
  }

  lemma AddedMore(before: seq<Byte>, data: seq<Byte>, n: nat, k: nat)
    requires n + k <= |data|
    ensures before + data[..n] + data[n..][..k] == before + data[..n + k]
  {
  }

  /** Overwriting the start of what was added, and taking the rest back. */
  lemma PatchThenCut(before: seq<Byte>, grown: seq<Byte>, bytes: seq<Byte>)
    requires before <= grown && |before| + |bytes| <= |grown|
    ensures Patch(grown, |before|, bytes)[..|before| + |bytes|] == before + bytes
  {
  }

  class OutputBuffer {
    var curBlock: BufferBlock
    var lastBlock: BufferBlock
    var toWriteBytes: int

    ghost var blocks: seq<BufferBlock>   // from curBlock to lastBlock
    ghost var base: nat                  // blocks sent and freed
    ghost var stream: seq<Byte>          // all bytes ever accepted
    ghost var repr: set<object>

    /** The chain of blocks holds the stream from its first unsent byte on. */
    ghost predicate Layout()
      reads this, repr
    {
      && this !in repr && Owns(repr, blocks) && Laid(repr, blocks, base, 0, stream)
      && curBlock == blocks[0] && lastBlock == blocks[|blocks| - 1]
    }

    /** Between operations, the first block has room for an unsent byte. */
    ghost predicate Shape()
      reads this, repr
    {
      Layout() && curBlock.begin < BLOCK_SIZE
    }

    ghost predicate Valid()
      reads this, repr
    {
      Shape() && toWriteBytes == |stream| - Sent()
    }

    /** How many bytes have left the buffer. */
    ghost function Sent(): int
      reads this, curBlock
    {
      base * BLOCK_SIZE + curBlock.begin
    }

    /** The bytes accepted and not yet sent. */
    ghost function Pending(): seq<Byte>
      requires Valid()
      reads this, repr
    {
      stream[Sent()..]
    }

    constructor ()
      ensures Valid() && fresh(repr) && stream == Pending() == [] && Sent() == 0
    {
      var b := new BufferBlock(0);
      curBlock, lastBlock, toWriteBytes := b, b, 0;
      blocks, base, stream, repr := [b], 0, [], {b, b.data};
    }

    /** Bytes are only added behind what was there: no block that holds unsent bytes moves. */
    twostate predicate Extended()
      reads this, curBlock
    {
      && old(blocks) <= blocks && base == old(base) && Sent() == old(Sent())
      && old(stream) <= stream && fresh(repr - old(repr))
    }

    /** Chain a fresh block behind a full one. */
    method Grow()
      requires Layout() && lastBlock.end == BLOCK_SIZE
      modifies this, repr
      ensures Layout() && Extended() && stream == old(stream) && toWriteBytes == old(toWriteBytes)
      ensures lastBlock.end == 0 && blocks == old(blocks) + [lastBlock]
    {
      var b := Chain(lastBlock, repr, blocks, base, 0, stream);
      lastBlock := b;
      blocks, repr := blocks + [b], repr + {b, b.data};
    }

    /** Copy bytes behind the end of the last block. */
    method Fill(data: seq<Byte>)
      requires Valid() && |data| <= BLOCK_SIZE - lastBlock.end
      modifies this, repr
      ensures Valid() && Extended() && stream == old(stream) + data
      ensures lastBlock == old(lastBlock) && lastBlock.end == old(lastBlock.end) + |data|
    {
      ghost var before := stream;
      toWriteBytes := toWriteBytes + |data|;
      stream := stream + data;
      Store(lastBlock, data, repr, blocks, base, 0, before);
    }

    /** One round of `append`: fills the last block, and chains a new one when it is full. A round
        that starts at a full block copies nothing. */
    method AppendRound(data: seq<Byte>) returns (taken: nat)
      requires Valid() && |data| > 0
      modifies this, repr
      ensures Valid() && Extended()
      ensures taken <= |data| && stream == old(stream) + data[..taken]
      ensures lastBlock.end < BLOCK_SIZE && (taken > 0 || old(lastBlock.end) == BLOCK_SIZE)
    {
      taken := if |data| < BLOCK_SIZE - lastBlock.end then |data| else BLOCK_SIZE - lastBlock.end;
      Fill(data[..taken]);
      if lastBlock.end == BLOCK_SIZE {
        Grow();
      }
    }

    /** Adds exactly the bytes of `data`. */
    method Append(data: seq<Byte>)
      requires Valid()
      modifies this, repr
      ensures Valid() && Extended() && Pending() == old(Pending()) + data
    {
      var done := 0;
      while done < |data|
        invariant 0 <= done <= |data|
        invariant Valid() && Extended() && stream == old(stream) + data[..done]
        decreases |data| - done, lastBlock.end
      {
        var taken := AppendRound(data[done..]);
        AddedMore(old(stream), data, done, taken);
        done := done + taken;
      }
    }

    /** Make room behind the end of the last block. */
    method MakeRoom()
      requires Valid()
      modifies this, repr
      ensures Valid() && Extended() && stream == old(stream) && lastBlock.end < BLOCK_SIZE
    {
      if lastBlock.end == BLOCK_SIZE {
        Grow();
      }
    }

    /** Lend the rest of the last block. */
    method Lend() returns (grant: Slice)
      requires Valid() && lastBlock.end < BLOCK_SIZE
      modifies this, repr
      ensures Valid() && Extended() && lastBlock == old(lastBlock)
      ensures grant == Slice(lastBlock.data, old(lastBlock.end), BLOCK_SIZE - old(lastBlock.end))
      ensures lastBlock.begin <= grant.off && lastBlock.end == BLOCK_SIZE
      ensures |stream| == |old(stream)| + grant.len
    {
      grant := Slice(lastBlock.data, lastBlock.end, BLOCK_SIZE - lastBlock.end);
      ghost var before := stream;
      toWriteBytes := toWriteBytes + grant.len;
      stream := stream + lastBlock.data[lastBlock.end..lastBlock.end + grant.len];
      Accept(lastBlock, grant.len, repr, blocks, base, 0, before);
    }

    /** Lends the rest of the last block, or a whole fresh one, and counts it as written at once. */
    method Next() returns (grant: Slice)
      requires Valid()
      modifies this, repr
      ensures Valid() && Extended()
      ensures grant.base == lastBlock.data && grant.off + grant.len == lastBlock.end == BLOCK_SIZE
      ensures lastBlock.begin <= grant.off && 0 < grant.len
      ensures |stream| == |old(stream)| + grant.len
    {
      MakeRoom();
      grant := Lend();
    }

    /** Take back the last `n` bytes of the last block. */
    method TakeBack(n: nat)
      requires Layout() && n <= lastBlock.end
      modifies this`stream, this`toWriteBytes, lastBlock`end
      ensures toWriteBytes == old(toWriteBytes) - n && lastBlock.end == old(lastBlock.end) - n
      ensures n <= |old(stream)| && stream == old(stream)[..|old(stream)| - n]
      ensures Layout() <==> lastBlock.begin <= lastBlock.end
    {
      ghost var before := stream;
      toWriteBytes := toWriteBytes - n;
      stream := stream[..|stream| - n];
      Cut(lastBlock, n, repr, blocks, base, 0, before);
    }

    /** Takes back the last `count` bytes, within the last block. If the block has sent bytes, taking
        back more than its unsent ones breaks the buffer. */
    method BackUp(count: nat)
      requires Valid()
      modifies this`stream, this`toWriteBytes, lastBlock`end
      ensures Valid() <==> count <= old(lastBlock.end - lastBlock.begin) || old(lastBlock.begin) == 0
      ensures lastBlock.end == old(lastBlock.end) - if count < old(lastBlock.end) then count else old(lastBlock.end)
      ensures stream == old(stream[..|stream| - if count < lastBlock.end then count else lastBlock.end])
    {
      TakeBack(if count < lastBlock.end then count else lastBlock.end);
    }

    /** The caller writes at the start of the grant that `Next` gave out. */
    method WriteGrant(grant: Slice, bytes: seq<Byte>)
      requires Valid() && lastBlock.end == BLOCK_SIZE && |bytes| <= grant.len
      requires grant.base == lastBlock.data && 0 <= grant.off && grant.off + grant.len == BLOCK_SIZE
      modifies this`stream, lastBlock.data
      ensures Valid()
      ensures |old(stream)| >= grant.len && stream == Patch(old(stream), |old(stream)| - grant.len, bytes)
    {
      ghost var before := stream;
      stream := Patch(stream, |stream| - grant.len, bytes);
      Overwrite(lastBlock, grant.off, bytes, repr, blocks, base, 0, before);
    }

    /** Write into a grant and give its unused end back: the stream goes on with the bytes written. */
    method Commit(grant: Slice, bytes: seq<Byte>, ghost before: seq<Byte>)
      requires Valid() && lastBlock.end == BLOCK_SIZE && |bytes| <= grant.len
      requires grant.base == lastBlock.data && 0 <= grant.off && grant.off + grant.len == BLOCK_SIZE
      requires lastBlock.begin <= grant.off && before <= stream && |stream| == |before| + grant.len
      modifies this`stream, this`toWriteBytes, lastBlock`end, lastBlock.data
      ensures Valid() && stream == before + bytes
    {
      PatchThenCut(before, stream, bytes);
      WriteGrant(grant, bytes);
      BackUp(grant.len - |bytes|);
    }

    /** One round of a serializer: write into a grant and give its unused end back. Exactly the bytes
        written are added. */
    method SerializeRound(data: seq<Byte>) returns (taken: nat)
      requires Valid() && |data| > 0
      modifies this, repr
      ensures Valid() && Extended()
      ensures 0 < taken <= |data| && stream == old(stream) + data[..taken]
    {
      var grant := Next();
      taken := if |data| < grant.len then |data| else grant.len;
      Commit(grant, data[..taken], old(stream));
    }

    /** A message written through the zero-copy interface adds exactly its bytes. */
    method Serialize(data: seq<Byte>)
      requires Valid()
      modifies this, repr
      ensures Valid() && Extended() && Pending() == old(Pending()) + data
    {
      var done := 0;
      while done < |data|
        invariant 0 <= done <= |data|
        invariant Valid() && Extended() && stream == old(stream) + data[..done]
      {
        var taken := SerializeRound(data[done..]);
        AddedMore(old(stream), data, done, taken);
        done := done + taken;
      }
    }

    /** Free a first block that is all sent and not the only one. */
    method FreeSent()
      requires Layout() && curBlock.begin == BLOCK_SIZE && curBlock.next != null
      modifies this`curBlock, this`blocks, this`base
      ensures Shape() && Sent() == old(Sent())
    {
      CursorNext(repr, blocks, base, 0, stream);
      FreeFirst(repr, blocks, base, 1, stream);
      curBlock := curBlock.next;
      blocks, base := blocks[1..], base + 1;
    }

    /** Free the first block once all of it is sent. */
    method Retire()
      requires Layout() && curBlock.begin == BLOCK_SIZE
      modifies this, repr
      ensures Shape() && stream == old(stream) && toWriteBytes == old(toWriteBytes) && fresh(repr - old(repr))
      ensures Sent() == old(Sent())
    {
      if curBlock.next == null {
        Grow();
      }
      FreeSent();
    }

    /** One round of `send_add`: drops bytes of the first block, and frees it when all of it is sent.
        The round makes progress exactly when something is pending. */
    method SendRound(left: int) returns (left': int)
      requires Shape() && left > 0
      modifies this, repr
      ensures Shape() && stream == old(stream) && toWriteBytes == old(toWriteBytes) && fresh(repr - old(repr))
      ensures 0 <= left' <= left && Sent() - old(Sent()) == left - left'
      ensures left' < left <==> old(Sent()) < |stream|
    {
      var curWrite := if left < curBlock.end - curBlock.begin then left else curBlock.end - curBlock.begin;
      left' := left - curWrite;
      Pass(curBlock, curWrite, repr, blocks, base, 0, stream);
      if curBlock.begin == BLOCK_SIZE {
        Retire();
      }
    }

    /** Drops exactly the first `nwrite` pending bytes. With fewer pending it comes to a state that its loop
        does not leave: `ends` is false there, and everything is dropped. */
    method SendAdd(nwrite: int) returns (ends: bool)
      requires Valid()
      modifies this, repr
      ensures Shape() && fresh(repr - old(repr)) && stream == old(stream)
      ensures ends <==> nwrite <= old(toWriteBytes)
      ensures toWriteBytes == old(toWriteBytes) - if nwrite <= 0 then 0 else nwrite
      ensures ends ==> Valid() && Pending() == old(Pending())[if nwrite < 0 then 0 else nwrite..]
      ensures !ends ==> Sent() == |stream|
    {
      ends := true;
      if nwrite <= 0 {
        return;
      }
      var left := nwrite;
      toWriteBytes := toWriteBytes - nwrite;
      while left > 0
        invariant Shape() && fresh(repr - old(repr)) && stream == old(stream)
        invariant 0 <= left <= nwrite && Sent() == old(Sent()) + nwrite - left
        invariant toWriteBytes == old(toWriteBytes) - nwrite
      {
        var before := left;
        left := SendRound(left);
        if left == before {
          ends := false;
          return;
        }
      }
    }

    /** The iovecs name the first blocks' unsent bytes, up to some end. */
    ghost predicate Snapshot(iovs: seq<Slice>)
      requires Shape()
      reads this, repr
    {
      && |iovs| <= |blocks|
      && (forall i {:trigger iovs[i]} :: 0 <= i < |iovs| ==>
            && iovs[i].base == blocks[i].data
            && iovs[i].off == (if i == 0 then curBlock.begin else 0)
            && 0 <= iovs[i].len && iovs[i].off + iovs[i].len <= BLOCK_SIZE
            && (i < |iovs| - 1 ==> iovs[i].off + iovs[i].len == BLOCK_SIZE))
      && Sent() + Total(iovs) <= |stream|
    }

    /** Iovecs keep naming the first pending bytes while bytes are added behind. */
    twostate lemma SnapshotKept(iovs: seq<Slice>)
      requires old(Shape()) && old(Snapshot(iovs)) && Shape() && Extended()
      ensures Snapshot(iovs)
    {
    }

    lemma {:induction false} SnapshotTotal(iovs: seq<Slice>)
      requires Shape() && Snapshot(iovs)
      ensures 0 <= Total(iovs)
      ensures iovs != [] ==>
        var last := iovs[|iovs| - 1];
        Sent() + Total(iovs) == (base + |iovs| - 1) * BLOCK_SIZE + last.off + last.len
    {
      if |iovs| > 1 {
        SnapshotTotal(iovs[..|iovs| - 1]);
      }
    }

    /** The last iovec names the last part of what the snapshot names. */
    lemma LastSlice(iovs: seq<Slice>)
      requires Valid() && Snapshot(iovs) && iovs != []
      ensures var front, last := iovs[..|iovs| - 1], iovs[|iovs| - 1];
        && Snapshot(front) && 0 <= Total(front) <= Total(iovs) <= |stream| - Sent()
        && 0 <= last.off && 0 <= last.len && last.off + last.len <= last.base.Length
        && last.base[last.off..last.off + last.len] == stream[Sent() + Total(front)..Sent() + Total(iovs)]
    {
      SnapshotTotal(iovs);
      var front, last := iovs[..|iovs| - 1], iovs[|iovs| - 1];
      SnapshotTotal(front);
      SliceOfStream(repr, blocks, base, 0, stream, |front|, last.off, last.off + last.len);
    }

    /** The bytes the kernel sees through a snapshot are the first pending bytes. */
    lemma {:induction false} SnapshotIsPrefix(iovs: seq<Slice>)
      requires Valid() && Snapshot(iovs)
      ensures InBlocks(iovs) && 0 <= Total(iovs) <= |Pending()| && Gather(iovs) == Pending()[..Total(iovs)]
    {
      if iovs != [] {
        LastSlice(iovs);
        SnapshotIsPrefix(iovs[..|iovs| - 1]);
        LongerPrefix(stream, Sent(), Total(iovs[..|iovs| - 1]), Total(iovs));
      }
    }

    lemma SnapshotSnoc(iovs: seq<Slice>, iov: Slice)
      requires Shape() && Snapshot(iovs) && |iovs| < |blocks|
      requires iovs != [] ==> iovs[|iovs| - 1].off + iovs[|iovs| - 1].len == BLOCK_SIZE
      requires var b := blocks[|iovs|]; iov == Slice(b.data, b.begin, b.end - b.begin)
      ensures Snapshot(iovs + [iov])
    {
      var all := iovs + [iov];
      assert Sent() + Total(all) <= |stream| by {
        SnapshotTotal(iovs);
        assert all[..|iovs|] == iovs;
        var b := blocks[|iovs|];
        SliceOfStream(repr, blocks, base, 0, stream, |iovs|, b.end, b.end);
      }
      forall i | 0 <= i < |all|
        ensures all[i].base == blocks[i].data && all[i].off == (if i == 0 then curBlock.begin else 0)
        ensures 0 <= all[i].len && all[i].off + all[i].len <= BLOCK_SIZE
        ensures i < |all| - 1 ==> all[i].off + all[i].len == BLOCK_SIZE
      {
        if i < |iovs| {
          assert all[i] == iovs[i];
        }
      }
    }

    /** How many pending bytes one call can offer: those in the first IOV_MAX blocks. */
    ghost function Offered(): int
      requires Valid()
      reads this, repr
    {
      var n := if |blocks| < IOV_MAX then |blocks| else IOV_MAX;
      (n - 1) * BLOCK_SIZE + blocks[n - 1].end - curBlock.begin
    }

    /** One call cannot offer everything exactly if the pending bytes go beyond IOV_MAX blocks. */
    lemma OfferIsPartial()
      requires Valid()
      ensures 0 <= Offered() <= |Pending()| && (Pending() != [] ==> Offered() > 0)
      ensures Offered() < |Pending()| <==> curBlock.begin + |Pending()| > IOV_MAX * BLOCK_SIZE
    {
      var n := if |blocks| < IOV_MAX then |blocks| else IOV_MAX;
      assert blocks[n - 1].end <= BLOCK_SIZE && (n < |blocks| ==> blocks[n - 1].end == BLOCK_SIZE);
      assert curBlock.begin <= blocks[0].end;
    }

    /** A snapshot that reaches the end of its last block holds something if anything is pending, and
        everything if it reaches the last block. */
    lemma SnapshotReach(iovs: seq<Slice>)
      requires Valid() && Snapshot(iovs) && iovs != []
      requires iovs[|iovs| - 1].off + iovs[|iovs| - 1].len == blocks[|iovs| - 1].end
      ensures InBlocks(iovs) && Gather(iovs) <= Pending() && |Gather(iovs)| == Total(iovs)
      ensures Total(iovs) == (|iovs| - 1) * BLOCK_SIZE + blocks[|iovs| - 1].end - curBlock.begin
      ensures |iovs| == |blocks| ==> Gather(iovs) == Pending()
      ensures Pending() != [] ==> Gather(iovs) != []
    {
      SnapshotTotal(iovs);
      SnapshotIsPrefix(iovs);
    }

    /** The iovecs end where the last of their blocks ends. */
    ghost predicate Reaches(iovs: seq<Slice>)
      requires Shape() && Snapshot(iovs)
      reads this, repr
    {
      iovs != [] ==> iovs[|iovs| - 1].off + iovs[|iovs| - 1].len == blocks[|iovs| - 1].end
    }

    method AddIovec(iovs: seq<Slice>, block: BufferBlock) returns (iovs': seq<Slice>)
      requires Shape() && Snapshot(iovs) && Reaches(iovs) && |iovs| < |blocks| && block == blocks[|iovs|]
      ensures |iovs'| == |iovs| + 1 && Snapshot(iovs') && Reaches(iovs')
    {
      var iov := Slice(block.data, block.begin, block.end - block.begin);
      SnapshotSnoc(iovs, iov);
      iovs' := iovs + [iov];
    }

    /** The loop of `get_iovecs`. */
    method Collect() returns (iovs: seq<Slice>)
      requires Shape()
      ensures |iovs| == if |blocks| < IOV_MAX then |blocks| else IOV_MAX
      ensures Snapshot(iovs) && Reaches(iovs)
    {
      iovs := [];
      var block: BufferBlock? := curBlock;
      while block != null && |iovs| < IOV_MAX
        invariant |iovs| <= |blocks| && |iovs| <= IOV_MAX
        invariant block == if |iovs| < |blocks| then blocks[|iovs|] else null
        invariant Snapshot(iovs) && Reaches(iovs)
        decreases |blocks| - |iovs|
      {
        iovs := AddIovec(iovs, block);
        block := block.next;
      }
    }

    /** Collects the unsent slices of the first IOV_MAX blocks. What they denote is a prefix of the
        pending bytes, and all of them when there are at most IOV_MAX blocks. */
    method GetIovecs() returns (iovs: seq<Slice>)
      requires Valid()
      ensures Snapshot(iovs) && InBlocks(iovs) && |iovs| == if |blocks| < IOV_MAX then |blocks| else IOV_MAX
      ensures Gather(iovs) <= Pending() && |Gather(iovs)| == Total(iovs) == Offered()
      ensures |blocks| <= IOV_MAX ==> Gather(iovs) == Pending()
      ensures Pending() != [] ==> Gather(iovs) != []
    {
      iovs := Collect();
      SnapshotReach(iovs);
    }

    /** What a submission needs of the iovecs: how many of the first pending bytes they name. */
    method Offer() returns (iovs: seq<Slice>, ghost reach: nat)
      requires Valid() && toWriteBytes > 0
      ensures Snapshot(iovs) && Total(iovs) == reach && 0 < reach <= |Pending()|
      ensures |blocks| <= IOV_MAX ==> reach == |Pending()|
    {
      iovs := GetIovecs();
      reach := |Gather(iovs)|;
    }
  }

  /** It does happen: two bytes are appended, one is sent, and two are taken back. */
  method BackUpBreaks() returns (out: OutputBuffer)
    ensures !out.Valid()
  {
    out := new OutputBuffer();
    out.Append([1, 2]);
    assert |out.blocks| == 1 && out.lastBlock.end == 2;
    var ends := out.SendAdd(1);
    assert out.lastBlock.begin == 1 && out.lastBlock.end == 2;
    out.BackUp(2);
  }
}
