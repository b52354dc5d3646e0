/** The wire format, and the receive loop that client and server share, on flat streams of bytes.

    A frame is a length word and a header followed by a length word and a body. The words are read by
    `fetch_uint32`, so a word that lies across two blocks of the input buffer leaves part of the
    variable as it was before the call. */
module Framing {
  import opened BufferBlocks
  import opened InputBuffers

  type Word4 = s: seq<Byte> | |s| == 4 witness [0, 0, 0, 0]

  datatype Frame = Frame(header: seq<Byte>, body: seq<Byte>)

  /** What uninitialized length variables hold when the word at a stream offset is fetched. */
  type Garbage = nat -> Word4

  function Le16(n: nat): seq<Byte>
    requires n < 65536
  {
    [n % 256, n / 256]
  }

  function Le32(n: nat): Word4
    requires n < 0x1_0000_0000
  {
    Le16(n % 65536) + Le16(n / 65536)
  }

  function Word(w: Word4): nat {
    (w[0] as int) + 256 * (w[1] as int) + 65536 * (w[2] as int) + 16777216 * (w[3] as int)
  }

  lemma WordOfLe32(n: nat)
    requires n < 0x1_0000_0000
    ensures Word(Le32(n)) == n
  {
    HalfWord(n % 65536);
    HalfWord(n / 65536);
  }

  /** Length words are little-endian. */
  lemma LittleEndian(n: nat)
    requires n < 0x1_0000_0000
    ensures var w := Le32(n);
      && (w[0] as int) == n % 256 && (w[1] as int) == n / 256 % 256
      && (w[2] as int) == n / 65536 % 256 && (w[3] as int) == n / 16777216
  {
    var lo, hi := n % 65536, n / 65536;
    assert n == hi * 65536 + lo;
    assert lo / 256 == n / 256 % 256 by { assert n / 256 == hi * 256 + lo / 256; }
    assert hi / 256 == n / 16777216;
  }

  lemma HalfWord(n: nat)
    requires n < 65536
    ensures var h := Le16(n); (h[0] as int) + 256 * (h[1] as int) == n
  {
  }

  /** The value a length variable holds after fetching the word at offset `at`. */
  function Fetched(stream: seq<Byte>, at: nat, prior: Word4): Word4
    requires at + WORD <= |stream|
  {
    var n := Min(BLOCK_SIZE - at % BLOCK_SIZE, WORD);
    stream[at..at + n] + prior[n..]
  }

  predicate WordFits(at: nat) { at % BLOCK_SIZE <= BLOCK_SIZE - WORD }

  // --- sending ---

  predicate Sendable(f: Frame) { |f.header| < INT32_MAX && |f.body| < INT32_MAX }

  function EncodeFrame(f: Frame): seq<Byte>
    requires Sendable(f)
  {
    Le32(|f.header|) + f.header + Le32(|f.body|) + f.body
  }

  function Encode(fs: seq<Frame>): seq<Byte>
    requires forall f :: f in fs ==> Sendable(f)
  {
    if fs == [] then [] else EncodeFrame(fs[0]) + Encode(fs[1..])
  }

  function FrameSize(f: Frame): nat { 2 * WORD + |f.header| + |f.body| }

  /** Both length words of every frame lie inside one block when the frames start at offset `at`. */
  predicate Aligned(at: nat, fs: seq<Frame>)
    decreases fs
  {
    fs == [] ||
    (WordFits(at) && WordFits(at + WORD + |fs[0].header|) && Aligned(at + FrameSize(fs[0]), fs[1..]))
  }

  // --- receiving ---

  /** Where the receive loop waits for more bytes. At `Oversize` a length does not fit in the int that
      limits the parser; what the program does from there on is not modelled. */
  datatype Point =
    | AtHeaderLen
    | AtHeader(n: nat)
    | AtBodyLen(header: seq<Byte>)
    | AtBody(header: seq<Byte>, n: nat)
    | Oversize

  datatype Parsed = Parsed(frames: seq<Frame>, at: nat, point: Point)

  function Need(p: Point): nat {
    match p
    case AtHeader(n) => n
    case AtBody(_, n) => n
    case _ => WORD
  }

  predicate Stops(stream: seq<Byte>, at: nat, p: Point)
    requires at <= |stream|
  {
    p.Oversize? || |stream| - at < Need(p)
  }

  /** One step of the receive loop, once the bytes it waits for are there. */
  function Advance(stream: seq<Byte>, at: nat, p: Point, g: Garbage): (r: Parsed)
    requires at <= |stream| && !Stops(stream, at, p)
    ensures at <= r.at <= |stream|
    ensures |stream| - r.at < |stream| - at || Rank(r.point) < Rank(p)
  {
    match p
    case AtHeaderLen => Parsed([], at + WORD, AtHeader(Word(Fetched(stream, at, g(at)))))
    case AtHeader(n) =>
      if n >= INT32_MAX then Parsed([], at, Oversize) else Parsed([], at + n, AtBodyLen(stream[at..at + n]))
    case AtBodyLen(h) => Parsed([], at + WORD, AtBody(h, Word(Fetched(stream, at, g(at)))))
    case AtBody(h, n) =>
      if n >= INT32_MAX then Parsed([], at, Oversize) else Parsed([Frame(h, stream[at..at + n])], at + n, AtHeaderLen)
  }

  function Rank(p: Point): nat {
    match p
    case AtHeader(_) => 2
    case AtBody(_, _) => 2
    case Oversize => 0
    case _ => 1
  }

  /** The receive loop from offset `at` and point `p` until the stream holds too few bytes. */
  function Receive(stream: seq<Byte>, at: nat, p: Point, g: Garbage): (r: Parsed)
    requires at <= |stream|
    ensures at <= r.at <= |stream| && Stops(stream, r.at, r.point)
    decreases |stream| - at, Rank(p)
  {
    if Stops(stream, at, p) then Parsed([], at, p)
    else
      var first := Advance(stream, at, p, g);
      var rest := Receive(stream, first.at, first.point, g);
      Prepend(first.frames, rest)
  }

  function Prepend(fs: seq<Frame>, r: Parsed): Parsed { r.(frames := fs + r.frames) }

  /** A step does not depend on bytes it has not waited for. */
  lemma AdvanceMonotone(stream: seq<Byte>, more: seq<Byte>, at: nat, p: Point, g: Garbage)
    requires at <= |stream| && !Stops(stream, at, p)
    ensures !Stops(stream + more, at, p) && Advance(stream + more, at, p, g) == Advance(stream, at, p, g)
  {
    var n := Need(p);
    assert (stream + more)[at..at + n] == stream[at..at + n];
    if p.AtHeaderLen? || p.AtBodyLen? {
      var k := Min(BLOCK_SIZE - at % BLOCK_SIZE, WORD);
      assert (stream + more)[at..at + k] == stream[at..at + k];
    }
  }

  lemma PrependTwice(fs: seq<Frame>, gs: seq<Frame>, r: Parsed)
    ensures Prepend(fs, Prepend(gs, r)) == Prepend(fs + gs, r) && Prepend([], r) == r
  {
    assert fs + (gs + r.frames) == fs + gs + r.frames;
  }

  /** Chunking does not matter: receiving a stream in two parts is receiving it at once. */
  lemma {:induction false} ReceiveInParts(stream: seq<Byte>, more: seq<Byte>, at: nat, p: Point, g: Garbage)
    requires at <= |stream|
    ensures var r := Receive(stream, at, p, g);
      Receive(stream + more, at, p, g) == Prepend(r.frames, Receive(stream + more, r.at, r.point, g))
    decreases |stream| - at, Rank(p)
  {
    if Stops(stream, at, p) {
      PrependTwice([], [], Receive(stream + more, at, p, g));
    } else {
      AdvanceMonotone(stream, more, at, p, g);
      var first := Advance(stream, at, p, g);
      ReceiveInParts(stream, more, first.at, first.point, g);
      var part := Receive(stream, first.at, first.point, g);
      PrependTwice(first.frames, part.frames, Receive(stream + more, part.at, part.point, g));
    }
  }

  // --- receiving inverts sending ---

  lemma FetchedFits(stream: seq<Byte>, at: nat, prior: Word4)
    requires at + WORD <= |stream| && WordFits(at)
    ensures Fetched(stream, at, prior) == stream[at..at + WORD]
  {
  }

  lemma SliceOfSlice(s: seq<Byte>, at: nat, n: nat, i: nat, j: nat)
    requires at + n <= |s| && i <= j <= n
    ensures s[at..at + n][i..j] == s[at + i..at + j]
  {
    var a, b := s[at..at + n][i..j], s[at + i..at + j];
    forall k | 0 <= k < |a|
      ensures a[k] == b[k]
    {
      assert a[k] == s[at..at + n][i + k];
    }
  }

  /** The wire format: a word with the header's length, the header, a word with the body's length, the body. */
  lemma EncodingParts(f: Frame)
    requires Sendable(f)
    ensures var e, n, h := EncodeFrame(f), FrameSize(f), WORD + |f.header|;
      && |e| == n && e[0..WORD] == Le32(|f.header|) && e[WORD..h] == f.header
      && e[h..h + WORD] == Le32(|f.body|) && e[h + WORD..n] == f.body
  {
  }

  /** The parts of an encoded frame. */
  lemma FrameParts(stream: seq<Byte>, at: nat, f: Frame)
    requires Sendable(f) && at + FrameSize(f) <= |stream| && stream[at..at + FrameSize(f)] == EncodeFrame(f)
    ensures var h, b := at + WORD + |f.header|, at + FrameSize(f);
      && Word(stream[at..at + WORD]) == |f.header| && stream[at + WORD..h] == f.header
      && Word(stream[h..h + WORD]) == |f.body| && stream[h + WORD..b] == f.body
  {
    var n, h := FrameSize(f), WORD + |f.header|;
    EncodingParts(f);
    SliceOfSlice(stream, at, n, 0, WORD);
    SliceOfSlice(stream, at, n, WORD, h);
    SliceOfSlice(stream, at, n, h, h + WORD);
    SliceOfSlice(stream, at, n, h + WORD, n);
    WordOfLe32(|f.header|);
    WordOfLe32(|f.body|);
  }

  /** From offset `at` and point `p` the loop hands on `fs` and comes to offset `at2` and point `p2`. */
  ghost predicate Leads(stream: seq<Byte>, g: Garbage, at: nat, p: Point, fs: seq<Frame>, at2: nat, p2: Point) {
    at <= |stream| && at2 <= |stream| && Receive(stream, at, p, g) == Prepend(fs, Receive(stream, at2, p2, g))
  }

  /** Two stretches of the loop, the first of which hands on nothing. */
  lemma LeadsOn(stream: seq<Byte>, g: Garbage, at: nat, p: Point, at2: nat, p2: Point,
                fs: seq<Frame>, at3: nat, p3: Point)
    requires Leads(stream, g, at, p, [], at2, p2) && Leads(stream, g, at2, p2, fs, at3, p3)
    ensures Leads(stream, g, at, p, fs, at3, p3)
  {
    PrependTwice([], [], Receive(stream, at2, p2, g));
  }

  lemma LeadsOneStep(stream: seq<Byte>, g: Garbage, at: nat, p: Point)
    requires at <= |stream| && !Stops(stream, at, p)
    ensures var r := Advance(stream, at, p, g); Leads(stream, g, at, p, r.frames, r.at, r.point)
  {
  }

  lemma ReceiveWord(stream: seq<Byte>, at: nat, p: Point, g: Garbage, n: nat)
    requires at + WORD <= |stream| && WordFits(at) && (p.AtHeaderLen? || p.AtBodyLen?)
    requires Word(stream[at..at + WORD]) == n
    ensures Leads(stream, g, at, p, [], at + WORD, if p.AtHeaderLen? then AtHeader(n) else AtBody(p.header, n))
  {
    FetchedFits(stream, at, g(at));
    LeadsOneStep(stream, g, at, p);
  }

  lemma ReceiveHeaderBytes(stream: seq<Byte>, at: nat, g: Garbage, h: seq<Byte>)
    requires |h| < INT32_MAX && at + |h| <= |stream| && stream[at..at + |h|] == h
    ensures Leads(stream, g, at, AtHeader(|h|), [], at + |h|, AtBodyLen(h))
  {
    LeadsOneStep(stream, g, at, AtHeader(|h|));
  }

  lemma ReceiveBodyBytes(stream: seq<Byte>, at: nat, h: seq<Byte>, g: Garbage, b: seq<Byte>)
    requires |b| < INT32_MAX && at + |b| <= |stream| && stream[at..at + |b|] == b
    ensures Leads(stream, g, at, AtBody(h, |b|), [Frame(h, b)], at + |b|, AtHeaderLen)
  {
    LeadsOneStep(stream, g, at, AtBody(h, |b|));
  }

  lemma ReceiveHeader(stream: seq<Byte>, at: nat, h: seq<Byte>, g: Garbage)
    requires |h| < INT32_MAX && at + WORD + |h| <= |stream| && WordFits(at)
    requires Word(stream[at..at + WORD]) == |h| && stream[at + WORD..at + WORD + |h|] == h
    ensures Leads(stream, g, at, AtHeaderLen, [], at + WORD + |h|, AtBodyLen(h))
  {
    ReceiveWord(stream, at, AtHeaderLen, g, |h|);
    ReceiveHeaderBytes(stream, at + WORD, g, h);
    LeadsOn(stream, g, at, AtHeaderLen, at + WORD, AtHeader(|h|), [], at + WORD + |h|, AtBodyLen(h));
  }

  lemma ReceiveBody(stream: seq<Byte>, at: nat, h: seq<Byte>, b: seq<Byte>, g: Garbage)
    requires |b| < INT32_MAX && at + WORD + |b| <= |stream| && WordFits(at)
    requires Word(stream[at..at + WORD]) == |b| && stream[at + WORD..at + WORD + |b|] == b
    ensures Leads(stream, g, at, AtBodyLen(h), [Frame(h, b)], at + WORD + |b|, AtHeaderLen)
  {
    ReceiveWord(stream, at, AtBodyLen(h), g, |b|);
    ReceiveBodyBytes(stream, at + WORD, h, g, b);
    LeadsOn(stream, g, at, AtBodyLen(h), at + WORD, AtBody(h, |b|), [Frame(h, b)], at + WORD + |b|, AtHeaderLen);
  }

  /** A frame whose length words each lie in one block is received as it was sent. */
  lemma ReceiveFrame(stream: seq<Byte>, at: nat, f: Frame, g: Garbage)
    requires Sendable(f) && at + FrameSize(f) <= |stream| && stream[at..at + FrameSize(f)] == EncodeFrame(f)
    requires WordFits(at) && WordFits(at + WORD + |f.header|)
    ensures Leads(stream, g, at, AtHeaderLen, [f], at + FrameSize(f), AtHeaderLen)
  {
    FrameParts(stream, at, f);
    var h := at + WORD + |f.header|;
    ReceiveHeader(stream, at, f.header, g);
    ReceiveBody(stream, h, f.header, f.body, g);
    LeadsOn(stream, g, at, AtHeaderLen, h, AtBodyLen(f.header), [f], at + FrameSize(f), AtHeaderLen);
  }

  lemma EncodeFirst(stream: seq<Byte>, at: nat, fs: seq<Frame>)
    requires (forall f :: f in fs ==> Sendable(f)) && fs != []
    requires at <= |stream| && stream[at..] == Encode(fs)
    ensures at + FrameSize(fs[0]) <= |stream|
    ensures stream[at..at + FrameSize(fs[0])] == EncodeFrame(fs[0])
    ensures stream[at + FrameSize(fs[0])..] == Encode(fs[1..])
  {
    var e := stream[at..];
    assert e[..FrameSize(fs[0])] == EncodeFrame(fs[0]) && e[FrameSize(fs[0])..] == Encode(fs[1..]);
  }

  /** Receiving inverts sending: any list of frames with aligned length words comes out as it went in. */
  lemma {:induction false} ReceiveInvertsEncode(stream: seq<Byte>, at: nat, fs: seq<Frame>, g: Garbage)
    requires forall f :: f in fs ==> Sendable(f)
    requires at <= |stream| && stream[at..] == Encode(fs) && Aligned(at, fs)
    ensures Receive(stream, at, AtHeaderLen, g) == Parsed(fs, |stream|, AtHeaderLen)
    decreases fs
  {
    if fs != [] {
      EncodeFirst(stream, at, fs);
      ReceiveFrame(stream, at, fs[0], g);
      ReceiveInvertsEncode(stream, at + FrameSize(fs[0]), fs[1..], g);
      assert fs == [fs[0]] + fs[1..];
    }
  }

  // --- and it does so only for aligned length words ---

  /** Variables that hold all ones before the fetch. */
  function AllOnes(): Garbage { _ => [255, 255, 255, 255] }

  lemma SplitWordIsHuge(stream: seq<Byte>, at: nat)
    requires at + WORD <= |stream| && !WordFits(at)
    ensures Word(Fetched(stream, at, AllOnes()(at))) > INT32_MAX
  {
    assert Fetched(stream, at, AllOnes()(at))[3] == 255;
  }

  lemma StuckAtSplitWord(stream: seq<Byte>, at: nat, p: Point)
    requires at + WORD <= |stream| && !WordFits(at) && (p.AtHeaderLen? || p.AtBodyLen?)
    ensures Receive(stream, at, p, AllOnes()).frames == []
  {
    SplitWordIsHuge(stream, at);
    var first := Advance(stream, at, p, AllOnes());
    assert Receive(stream, first.at, first.point, AllOnes()).frames == [];
  }

  lemma StuckInFrame(stream: seq<Byte>, at: nat, f: Frame)
    requires Sendable(f) && at + FrameSize(f) <= |stream| && stream[at..at + FrameSize(f)] == EncodeFrame(f)
    requires !(WordFits(at) && WordFits(at + WORD + |f.header|))
    ensures Receive(stream, at, AtHeaderLen, AllOnes()).frames == []
  {
    if !WordFits(at) {
      StuckAtSplitWord(stream, at, AtHeaderLen);
    } else {
      FrameParts(stream, at, f);
      ReceiveHeader(stream, at, f.header, AllOnes());
      StuckAtSplitWord(stream, at + WORD + |f.header|, AtBodyLen(f.header));
    }
  }

  lemma {:induction false} SplitWordLosesFrames(stream: seq<Byte>, at: nat, fs: seq<Frame>)
    requires forall f :: f in fs ==> Sendable(f)
    requires at <= |stream| && stream[at..] == Encode(fs) && !Aligned(at, fs)
    ensures |Receive(stream, at, AtHeaderLen, AllOnes()).frames| < |fs|
    decreases fs
  {
    var f, g := fs[0], AllOnes();
    EncodeFirst(stream, at, fs);
    if Aligned(at + FrameSize(f), fs[1..]) {
      StuckInFrame(stream, at, f);
    } else if !WordFits(at) || !WordFits(at + WORD + |f.header|) {
      StuckInFrame(stream, at, f);
    } else {
      ReceiveFrame(stream, at, f, g);
      SplitWordLosesFrames(stream, at + FrameSize(f), fs[1..]);
      var rest := Receive(stream, at + FrameSize(f), AtHeaderLen, g);
      assert |Prepend([f], rest).frames| == 1 + |rest.frames|;
    }
  }

  /** A list of frames survives the wire, whatever the length variables held before, if and only if no
      length word lies across two blocks of the receiver's buffer. */
  lemma FramesSurviveIffAligned(fs: seq<Frame>)
    requires forall f :: f in fs ==> Sendable(f)
    ensures (forall g :: Receive(Encode(fs), 0, AtHeaderLen, g).frames == fs) <==> Aligned(0, fs)
  {
    var stream := Encode(fs);
    assert stream[0..] == stream;
    if Aligned(0, fs) {
      forall g ensures Receive(stream, 0, AtHeaderLen, g).frames == fs {
        ReceiveInvertsEncode(stream, 0, fs, g);
      }
    } else {
      SplitWordLosesFrames(stream, 0, fs);
    }
  }

  /** A header of 8185 bytes puts the second length word at offset 8189. */
  function LongHeader(): Frame { Frame(seq(BLOCK_SIZE - WORD - 3, _ => 0), []) }

  /** It does happen: such a frame is lost if the length variable held all ones. */
  lemma LongHeaderIsLost()
    ensures Sendable(LongHeader()) && !Aligned(0, [LongHeader()])
    ensures Receive(Encode([LongHeader()]), 0, AtHeaderLen, AllOnes()).frames == []
  {
    var fs := [LongHeader()];
    assert !WordFits(0 + WORD + |fs[0].header|);
    assert Encode(fs)[0..] == Encode(fs);
    SplitWordLosesFrames(Encode(fs), 0, fs);
  }

  /** What has been received of a stream of aligned frames is always a prefix of them, and all of them
      when all bytes have arrived. */
  lemma PrefixGivesPrefix(fs: seq<Frame>, stream: seq<Byte>, g: Garbage)
    requires (forall f :: f in fs ==> Sendable(f)) && Aligned(0, fs) && stream <= Encode(fs)
    ensures Receive(stream, 0, AtHeaderLen, g).frames <= fs
    ensures stream == Encode(fs) ==> Receive(stream, 0, AtHeaderLen, g) == Parsed(fs, |stream|, AtHeaderLen)
  {
    var all, n := Encode(fs), |stream|;
    assert all[0..] == all && stream + all[n..] == all;
    ReceiveInvertsEncode(all, 0, fs, g);
    ReceiveInParts(stream, all[n..], 0, AtHeaderLen, g);
  }

  // --- how many frames a part of a stream holds ---

  function Size(fs: seq<Frame>): nat {
    if fs == [] then 0 else FrameSize(fs[0]) + Size(fs[1..])
  }

  /** How much of a frame has been taken from the buffer at a point of the receive loop. */
  function Held(p: Point): nat {
    match p
    case AtHeaderLen => 0
    case AtHeader(_) => WORD
    case AtBodyLen(h) => WORD + |h|
    case AtBody(h, _) => 2 * WORD + |h|
    case Oversize => 0
  }

  lemma AdvanceConserves(stream: seq<Byte>, at: nat, p: Point, g: Garbage)
    requires at <= |stream| && !Stops(stream, at, p)
    ensures var r := Advance(stream, at, p, g);
      |r.frames| <= 1 && Size(r.frames) + Held(r.point) <= r.at - at + Held(p)
  {
  }

  lemma SizeOfPrepend(fs: seq<Frame>, r: Parsed)
    requires |fs| <= 1
    ensures Size(Prepend(fs, r).frames) == Size(fs) + Size(r.frames)
  {
    if fs == [] {
      assert fs + r.frames == r.frames;
    } else {
      assert (fs + r.frames)[1..] == r.frames;
    }
  }

  /** The receive loop hands on no more than it has taken, whatever the bytes are. */
  lemma {:induction false} ReceiveConserves(stream: seq<Byte>, at: nat, p: Point, g: Garbage)
    requires at <= |stream|
    ensures var r := Receive(stream, at, p, g); Size(r.frames) + Held(r.point) <= r.at - at + Held(p)
    decreases |stream| - at, Rank(p)
  {
    if !Stops(stream, at, p) {
      AdvanceConserves(stream, at, p, g);
      var first := Advance(stream, at, p, g);
      ReceiveConserves(stream, first.at, first.point, g);
      SizeOfPrepend(first.frames, Receive(stream, first.at, first.point, g));
    }
  }

  lemma Regroup<T>(a: seq<T>, b: seq<T>, c: seq<T>)
    ensures a + (b + c) == a + b + c
  {
  }

  lemma {:induction false} EncodeConcat(fs: seq<Frame>, gs: seq<Frame>)
    requires forall f :: f in fs ==> Sendable(f)
    requires forall f :: f in gs ==> Sendable(f)
    ensures forall f :: f in fs + gs ==> Sendable(f)
    ensures Encode(fs + gs) == Encode(fs) + Encode(gs)
  {
    if fs == [] {
      assert fs + gs == gs;
    } else {
      EncodeConcat(fs[1..], gs);
      assert (fs + gs)[1..] == fs[1..] + gs && (fs + gs)[0] == fs[0];
      assert Encode(fs + gs) == EncodeFrame(fs[0]) + (Encode(fs[1..]) + Encode(gs));
      Regroup(EncodeFrame(fs[0]), Encode(fs[1..]), Encode(gs));
    }
  }

  lemma {:induction false} EncodeSize(fs: seq<Frame>)
    requires forall f :: f in fs ==> Sendable(f)
    ensures |Encode(fs)| == Size(fs)
  {
    if fs != [] { EncodeSize(fs[1..]); }
  }

  lemma {:induction false} AlignedPrefix(at: nat, fs: seq<Frame>, gs: seq<Frame>)
    requires Aligned(at, fs + gs)
    ensures Aligned(at, fs)
    decreases fs
  {
    if fs != [] {
      assert (fs + gs)[1..] == fs[1..] + gs && (fs + gs)[0] == fs[0];
      AlignedPrefix(at + FrameSize(fs[0]), fs[1..], gs);
    }
  }

  /** A part of a stream of aligned frames yields exactly the frames that end within it. */
  lemma FramesWithin(fs: seq<Frame>, n: nat, i: nat, g: Garbage)
    requires (forall f :: f in fs ==> Sendable(f)) && Aligned(0, fs) && n <= |Encode(fs)| && i <= |fs|
    ensures i <= |Receive(Encode(fs)[..n], 0, AtHeaderLen, g).frames| <==> Size(fs[..i]) <= n
  {
    var part := Encode(fs)[..n];
    PrefixGivesPrefix(fs, part, g);
    ReceiveConserves(part, 0, AtHeaderLen, g);
    var k := |Receive(part, 0, AtHeaderLen, g).frames|;
    if i <= k {
      assert Receive(part, 0, AtHeaderLen, g).frames == fs[..k];
      SizeGrows(fs, i, k);
    } else if Size(fs[..i]) <= n {
      FirstFramesArrive(fs, n, i, g);
    }
  }

  lemma {:induction false} SizeGrows(fs: seq<Frame>, i: nat, k: nat)
    requires i <= k <= |fs|
    ensures Size(fs[..i]) <= Size(fs[..k])
  {
    if i > 0 {
      SizeGrows(fs[1..], i - 1, k - 1);
      assert fs[..i][1..] == fs[1..][..i - 1] && fs[..k][1..] == fs[1..][..k - 1];
    }
  }

  lemma FirstFramesArrive(fs: seq<Frame>, n: nat, i: nat, g: Garbage)
    requires (forall f :: f in fs ==> Sendable(f)) && Aligned(0, fs) && n <= |Encode(fs)| && i <= |fs|
    requires Size(fs[..i]) <= n
    ensures i <= |Receive(Encode(fs)[..n], 0, AtHeaderLen, g).frames|
  {
    var first, part := Encode(fs[..i]), Encode(fs)[..n];
    assert fs == fs[..i] + fs[i..];
    EncodeConcat(fs[..i], fs[i..]);
    EncodeSize(fs[..i]);
    AlignedPrefix(0, fs[..i], fs[i..]);
    assert first[0..] == first && part == first + part[|first|..];
    ReceiveInvertsEncode(first, 0, fs[..i], g);
    ReceiveInParts(first, part[|first|..], 0, AtHeaderLen, g);
  }
}
