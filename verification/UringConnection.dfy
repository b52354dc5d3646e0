/** The io_uring connection over its real output buffer: every operation is the step of the write
    protocol, and the kernel's iovecs keep naming the submitted bytes in memory. */
module UringConnections {
  import opened BufferBlocks
  import opened OutputBuffers
  import opened Framing
  import opened FrameSenders
  import opened SendTasks
  import Protocol = UringWrites

  class UringConnection {
    const out: OutputBuffer
    var backLeft: int
    var iovecs: seq<Slice>
    var sender: Sender   // where send_fn is suspended

    ghost var flying: seq<seq<Byte>>   // submitted and not completed
    ghost var accepted: seq<Byte>      // taken by the kernel
    ghost var appended: seq<Byte>      // ever appended

    ghost function View(): Protocol.Conn
      requires out.Valid()
      reads this, out, out.repr
    {
      Protocol.Conn(out.Pending(), backLeft, flying, accepted, appended, sender, [])
    }

    /** The protocol's invariant, except for where `send_fn` waits, and iovecs that name the write in flight. */
    ghost predicate Core()
      reads this, out, out.repr
    {
      && this !in out.repr && out.Valid() && Protocol.Inv(View().(sender := InWrite))
      && (flying != [] ==> out.Snapshot(iovecs) && Total(iovecs) == |flying[0]|)
    }

    ghost predicate Valid()
      reads this, out, out.repr
    {
      Core() && Protocol.Inv(View())
    }

    constructor ()
      ensures Valid() && fresh(out) && fresh(out.repr)
      ensures View() == Protocol.Init().(sender := InWait, tasks := [])
    {
      out := new OutputBuffer();
      backLeft, iovecs, sender, flying, accepted, appended := 0, [], InWait, [], [], [];
    }

    /** What the kernel reads through the iovecs of the write in flight is what was submitted. */
    lemma KernelSeesSubmitted()
      requires Core() && flying != []
      ensures InBlocks(iovecs) && Gather(iovecs) == flying[0] && Gather(iovecs) <= out.Pending()
    {
      out.SnapshotIsPrefix(iovecs);
    }

    /** Hands the pending bytes, or the first IOV_MAX blocks of them, to the kernel. */
    method Submit() returns (ghost reach: nat)
      requires Core() && backLeft == 0 < out.toWriteBytes
      modifies this`backLeft, this`iovecs, this`flying
      ensures Core() && 0 < reach <= |out.Pending()|
      ensures View() == old(View()).(backLeft := |out.Pending()|, flying := old(flying) + [out.Pending()[..reach]])
      ensures |out.blocks| <= IOV_MAX ==> reach == |out.Pending()|
    {
      var iovs;
      iovs, reach := out.Offer();
      Protocol.SubmitKeepsInv(View().(sender := InWrite), reach);
      backLeft := out.toWriteBytes;
      iovecs := iovs;
      flying := flying + [out.Pending()[..reach]];
    }

    /** Suspends behind an unfinished write, submits what is pending, or does not suspend. */
    method AsyncWrite() returns (suspend: bool, ghost reach: nat)
      requires Core()
      modifies this`backLeft, this`iovecs, this`flying
      ensures Core() && (View(), suspend) == Protocol.AsyncWrite(old(View()), reach)
      ensures |out.blocks| <= IOV_MAX ==> reach == |out.Pending()|
    {
      reach := |out.Pending()|;
      if backLeft > 0 {
        return true, reach;
      }
      if out.toWriteBytes == 0 {
        backLeft := 0;
        return false, reach;
      }
      reach := Submit();
      suspend := true;
    }

    /** Runs `send_fn` from the top of its loop to its next suspension. */
    method SendLoop() returns (ghost reach: nat)
      requires Core()
      modifies this`backLeft, this`iovecs, this`flying, this`sender
      ensures Core() && View() == Protocol.SendLoop(old(View()), reach)
      ensures |out.blocks| <= IOV_MAX ==> reach == |out.Pending()|
    {
      reach := |out.Pending()|;
      if out.toWriteBytes > 0 {
        var suspend;
        suspend, reach := AsyncWrite();
        sender := if suspend then InWrite else InWait;
      } else {
        sender := InWait;
      }
    }

    /** `send_fn` goes on from its wait for output: straight to `async_write`. */
    method LeaveWait() returns (ghost reach: nat)
      requires Core() && sender == InWait
      modifies this`backLeft, this`iovecs, this`flying, this`sender
      ensures Core() && View() == Protocol.ResumeWrite(old(View()), reach)
      ensures |out.blocks| <= IOV_MAX ==> reach == |out.Pending()|
    {
      var suspend;
      suspend, reach := AsyncWrite();
      if suspend {
        sender := InWrite;
      } else {
        reach := SendLoop();
      }
    }

    /** Runs `send_fn` from where it is suspended to its next suspension. */
    method ResumeWrite() returns (ghost reach: nat)
      requires Core() && (sender == InWait || sender == InWrite)
      modifies this`backLeft, this`iovecs, this`flying, this`sender
      ensures Valid() && View() == Protocol.ResumeWrite(old(View()), reach)
      ensures |out.blocks| <= IOV_MAX ==> reach == |out.Pending()|
    {
      ghost var before := View();
      if sender == InWait {
        reach := LeaveWait();
      } else {
        reach := SendLoop();
      }
      Protocol.ResumeKeepsInv(before, reach);
    }

    /** Append behind whatever the kernel is writing. */
    method Enqueue(f: Frame)
      requires Valid() && Sendable(f)
      modifies this`appended, out, out.repr
      ensures Core() && View() == Protocol.Enqueue(old(View()), EncodeFrame(f))
      ensures out.Pending() == old(out.Pending()) + EncodeFrame(f)
    {
      Protocol.EnqueueKeepsInv(View(), EncodeFrame(f));
      appended := appended + EncodeFrame(f);
      WriteFrame(out, f);
      if flying != [] {
        out.SnapshotKept(iovecs);
      }
    }

    /** A response is appended and `send_fn` is resumed. */
    method Respond(f: Frame) returns (ghost reach: nat)
      requires Valid() && sender != NotStarted && Sendable(f)
      modifies this, out, out.repr
      ensures Valid() && View() == Protocol.Step(old(View()), Protocol.Respond(EncodeFrame(f), reach))
      ensures out.Pending() == old(out.Pending()) + EncodeFrame(f)
    {
      Enqueue(f);
      reach := ResumeWrite();
    }

    /** Written bytes leave the buffer. */
    method SendAdd(res: nat)
      requires Valid() && flying != [] && res <= |flying[0]|
      modifies this`backLeft, this`accepted, this`flying, out, out.repr
      ensures Core() && res <= |old(out.Pending())| && View() == Protocol.Retire(old(View()), res)
      ensures out.Pending() == old(out.Pending())[res..]
    {
      Protocol.RetireKeepsInv(View(), res);
      ghost var after := Protocol.Retire(View(), res);
      var ends := out.SendAdd(res);
      accepted, flying := after.accepted, after.flying;
      backLeft := backLeft - res;
      assert View() == after;
    }

    /** The kernel reports `res` bytes written: they leave the buffer and `send_fn` is resumed. */
    method Complete(res: nat) returns (ghost reach: nat)
      requires Valid() && flying != [] && res <= |flying[0]|
      modifies this, out, out.repr
      ensures Valid() && View() == Protocol.Step(old(View()), Protocol.Complete(res, reach))
      ensures res <= |old(out.Pending())| && out.Pending() == old(out.Pending())[res..]
    {
      SendAdd(res);
      reach := ResumeWrite();
    }
  }
}
