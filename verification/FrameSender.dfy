/** How client and server write a frame. */
module FrameSenders {
  import opened BufferBlocks
  import opened OutputBuffers
  import opened InputBuffers
  import opened Framing

  /** A length word goes through `append`, the message itself through the zero-copy stream. */
  method WritePart(out: OutputBuffer, message: seq<Byte>)
    requires out.Valid() && |message| < INT32_MAX
    modifies out, out.repr
    ensures out.Valid() && out.Extended() && out.Pending() == old(out.Pending()) + (Le32(|message|) + message)
  {
    out.Append(Le32(|message|));
    out.Serialize(message);
  }

  lemma FrameInTwoParts(before: seq<Byte>, f: Frame)
    requires Sendable(f)
    ensures before + (Le32(|f.header|) + f.header) + (Le32(|f.body|) + f.body) == before + EncodeFrame(f)
  {
    Regroup(Le32(|f.header|) + f.header, Le32(|f.body|), f.body);
    Regroup(before, Le32(|f.header|) + f.header, Le32(|f.body|) + f.body);
  }

  /** Writing a frame adds exactly its encoding behind what is pending. */
  method WriteFrame(out: OutputBuffer, f: Frame)
    requires out.Valid() && Sendable(f)
    modifies out, out.repr
    ensures out.Valid() && out.Extended() && out.Pending() == old(out.Pending()) + EncodeFrame(f)
  {
    ghost var before := out.Pending();
    WritePart(out, f.header);
    WritePart(out, f.body);
    FrameInTwoParts(before, f);
  }
}
