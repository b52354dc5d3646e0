/** The receive loop of client and server, run on a real input buffer. */
module FrameReceivers {
  import opened BufferBlocks
  import opened InputBuffers
  import opened Framing

  class FrameReceiver {
    const input: InputBuffer
    const garbage: Garbage
    var point: Point

    ghost var frames: seq<Frame>   // frames handed on so far

    ghost predicate Ready()
      reads this, input, input.repr
    {
      this !in input.repr && input.Valid() && input.limit == INT32_MAX
    }

    /** The receiver stands where the loop over the flat stream of all received bytes stops. */
    ghost predicate Valid()
      reads this, input, input.repr
    {
      Ready() && Receive(input.stream, 0, AtHeaderLen, garbage) == Parsed(frames, input.consumedBytes, point)
    }

    constructor (g: Garbage)
      ensures Valid() && fresh(input) && fresh(input.repr) && garbage == g && input.stream == [] && frames == []
    {
      input := new InputBuffer();
      garbage, point, frames := g, AtHeaderLen, [];
    }

    /** Fetch a length word. */
    method FetchWord() returns (n: nat)
      requires Ready() && input.readBytes >= WORD
      modifies input, input.repr
      ensures Ready() && input.stream == old(input.stream) && input.repr == old(input.repr)
      ensures input.consumedBytes == old(input.consumedBytes) + WORD <= |input.stream|
      ensures n == Word(Fetched(input.stream, old(input.consumedBytes), garbage(old(input.consumedBytes))))
    {
      input.CursorOffset();
      var prior := garbage(input.consumedBytes);
      var ok, copied, value, stray := input.FetchUint32(prior);
      n := Word(value);
    }

    /** Parse a header or a body of `n` bytes. */
    method ReadPart(n: nat) returns (bytes: seq<Byte>)
      requires Ready() && n < INT32_MAX && n <= input.readBytes
      modifies input, input.repr
      ensures Ready() && input.stream == old(input.stream) && input.repr == old(input.repr)
      ensures input.consumedBytes == old(input.consumedBytes) + n <= |input.stream|
      ensures bytes == input.stream[old(input.consumedBytes)..input.consumedBytes]
    {
      bytes := input.ReadLimited(n);
    }

    /** One step of the loop at a length word. */
    method StepWord()
      requires Ready() && input.readBytes >= WORD && (point.AtHeaderLen? || point.AtBodyLen?)
      modifies this`point, input, input.repr
      ensures Ready() && input.stream == old(input.stream) && input.repr == old(input.repr)
      ensures Parsed([], input.consumedBytes, point) ==
              Advance(input.stream, old(input.consumedBytes), old(point), garbage)
    {
      var n := FetchWord();
      point := if point.AtHeaderLen? then AtHeader(n) else AtBody(point.header, n);
    }

    /** One step of the loop at a header or a body. */
    method StepBytes() returns (out: seq<Frame>)
      requires Ready() && (point.AtHeader? || point.AtBody?) && input.readBytes >= point.n
      modifies this`point, input, input.repr
      ensures Ready() && input.stream == old(input.stream) && input.repr == old(input.repr)
      ensures Parsed(out, input.consumedBytes, point) ==
              Advance(input.stream, old(input.consumedBytes), old(point), garbage)
    {
      out := [];
      if point.n >= INT32_MAX {
        point := Oversize;
        return;
      }
      var bytes := ReadPart(point.n);
      if point.AtHeader? {
        point := AtBodyLen(bytes);
      } else {
        out := [Frame(point.header, bytes)];
        point := AtHeaderLen;
      }
    }

    /** One step of the loop, when the bytes it waits for have arrived. */
    method StepOnce() returns (out: seq<Frame>)
      requires Ready() && !Stops(input.stream, input.consumedBytes, point)
      modifies this`point, input, input.repr
      ensures Ready() && input.stream == old(input.stream) && input.repr == old(input.repr)
      ensures Parsed(out, input.consumedBytes, point) ==
              Advance(input.stream, old(input.consumedBytes), old(point), garbage)
    {
      if point.AtHeaderLen? || point.AtBodyLen? {
        StepWord();
        out := [];
      } else {
        out := StepBytes();
      }
    }

    /** What is still to be done from here on completes the frames handed on so far. */
    ghost predicate OnTrack()
      reads this, input, input.repr
    {
      && Ready()
      && Receive(input.stream, 0, AtHeaderLen, garbage) ==
         Prepend(frames, Receive(input.stream, input.consumedBytes, point, garbage))
    }

    lemma OnTrackAtStop()
      requires OnTrack() && Stops(input.stream, input.consumedBytes, point)
      ensures Valid()
    {
      assert frames + [] == frames;
    }

    lemma ValidAfterMore(before: seq<Byte>, more: seq<Byte>)
      requires Ready() && input.stream == before + more && input.consumedBytes <= |before|
      requires Receive(before, 0, AtHeaderLen, garbage) == Parsed(frames, input.consumedBytes, point)
      ensures OnTrack()
    {
      ReceiveInParts(before, more, 0, AtHeaderLen, garbage);
    }

    method StepOnTrack() returns (out: seq<Frame>)
      requires OnTrack() && !Stops(input.stream, input.consumedBytes, point)
      modifies this`point, this`frames, input, input.repr
      ensures OnTrack() && input.stream == old(input.stream) && input.repr == old(input.repr)
      ensures frames == old(frames) + out
      ensures input.readBytes < old(input.readBytes) ||
              (input.readBytes == old(input.readBytes) && Rank(point) < old(Rank(point)))
    {
      out := StepOnce();
      PrependTwice(frames, out, Receive(input.stream, input.consumedBytes, point, garbage));
      frames := frames + out;
    }

    /** Run the loop until it has to wait. */
    method Pump() returns (out: seq<Frame>)
      requires OnTrack()
      modifies this`point, this`frames, input, input.repr
      ensures Valid() && input.stream == old(input.stream) && input.repr == old(input.repr)
      ensures frames == old(frames) + out
    {
      out := [];
      while !point.Oversize? && input.readBytes >= Need(point)
        invariant OnTrack() && input.stream == old(input.stream) && input.repr == old(input.repr)
        invariant frames == old(frames) + out
        decreases input.readBytes, Rank(point)
      {
        var more := StepOnTrack();
        Regroup(old(frames), out, more);
        out := out + more;
      }
      OnTrackAtStop();
    }

    /** Read as much as the buffer has room for, and parse. */
    method FeedOnce(chunk: seq<Byte>) returns (n: nat, out: seq<Frame>)
      requires Valid() && chunk != []
      modifies this`point, this`frames, input, input.repr
      ensures Valid() && fresh(input.repr - old(input.repr))
      ensures 0 < n <= |chunk| && input.stream == old(input.stream) + chunk[..n]
      ensures frames == old(frames) + out
    {
      var room := input.GetBuffer();
      n := Min(|chunk|, room.len);
      input.Receive(chunk[..n]);
      ValidAfterMore(old(input.stream), chunk[..n]);
      out := Pump();
    }

    /** Bytes arrive: take them in as room allows, and parse after each read. Whatever the chunks, the
        frames handed on are those of the flat stream of all bytes received. */
    method Feed(chunk: seq<Byte>) returns (out: seq<Frame>)
      requires Valid()
      modifies this`point, this`frames, input, input.repr
      ensures Valid() && input.stream == old(input.stream) + chunk && fresh(input.repr - old(input.repr))
      ensures frames == old(frames) + out
    {
      out := [];
      var rest := chunk;
      while rest != []
        invariant Valid() && fresh(input.repr - old(input.repr))
        invariant input.stream + rest == old(input.stream) + chunk && frames == old(frames) + out
        decreases |rest|
      {
        ghost var before := input.stream;
        var n, more := FeedOnce(rest);
        assert before + rest[..n] + rest[n..] == before + rest;
        rest, out := rest[n..], out + more;
      }
    }

    /** While bytes of aligned frames arrive, the frames handed on are a prefix of those sent; once all
        bytes have arrived they are all of them. */
    lemma HandsOnWhatWasSent(fs: seq<Frame>)
      requires Valid() && (forall f :: f in fs ==> Sendable(f)) && Aligned(0, fs) && input.stream <= Encode(fs)
      ensures frames <= fs
      ensures input.stream == Encode(fs) ==> frames == fs && point == AtHeaderLen
    {
      PrefixGivesPrefix(fs, input.stream, garbage);
    }
  }
}
