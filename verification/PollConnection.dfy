/** The polled connection over its real buffers: every operation is a step, or a run of steps, of the read
    and the write protocol. */
module PollConnections {
  import opened BufferBlocks
  import opened InputBuffers
  import opened OutputBuffers
  import opened Framing
  import opened FrameSenders
  import opened SendTasks
  import Reads = PollReads
  import Writes = PollWrites

  /** The kernel at one `read`: what arrives just before it, and whether a signal interrupts it; if not,
      how many bytes it gets. */
  datatype Turn = Turn(arrivals: seq<Byte>, interrupted: bool, n: nat)

  /** The events that can happen during `async_read`. */
  predicate InCall(e: Reads.Event) { e.Arrive? || e.ReadSome? || e.Interrupt? }

  /** The write loop has got `took` accepted, and what is left of it completes `all`. */
  ghost predicate Writing(pending: seq<Byte>, offered: nat, nwrite: nat, took: seq<Byte>,
                          todo: seq<Writes.Answer>, all: Writes.Written)
  {
    var rest := Writes.WriteLoop(pending, nwrite, Writes.Capped(todo, offered));
    took + rest.bytes == all.bytes && rest.total == all.total
  }

  lemma WriteBegins(pending: seq<Byte>, offered: nat, todo: seq<Writes.Answer>)
    ensures Writing(pending, offered, 0, [], todo, Writes.WriteLoop(pending, 0, Writes.Capped(todo, offered)))
  {
    var all := Writes.WriteLoop(pending, 0, Writes.Capped(todo, offered));
    assert [] + all.bytes == all.bytes;
  }

  lemma WriteGoesOn(pending: seq<Byte>, offered: nat, nwrite: nat, took: seq<Byte>,
                    todo: seq<Writes.Answer>, all: Writes.Written)
    requires Writing(pending, offered, nwrite, took, todo, all) && offered <= |pending|
    requires nwrite < |pending| && todo != []
    ensures todo[0].Wrote? ==>
      var k := Min(todo[0].n, offered); Writing(pending, offered, nwrite + k, took + pending[..k], todo[1..], all)
    ensures todo[0].Interrupted? ==> Writing(pending, offered, nwrite, took, todo[1..], all)
  {
    assert Writes.Capped(todo, offered)[1..] == Writes.Capped(todo[1..], offered);
    if todo[0].Wrote? {
      var k := Min(todo[0].n, offered);
      Regroup(took, pending[..k], Writes.WriteLoop(pending, nwrite + k, Writes.Capped(todo[1..], offered)).bytes);
    }
  }

  lemma WriteStops(pending: seq<Byte>, offered: nat, nwrite: nat, took: seq<Byte>,
                   todo: seq<Writes.Answer>, all: Writes.Written)
    requires Writing(pending, offered, nwrite, took, todo, all)
    requires nwrite >= |pending| || todo == [] || todo[0].WouldBlock? || todo[0].Failed?
    ensures Writes.Written(took, nwrite) == all
  {
    assert took + [] == took;
  }

  class PollConnection {
    const input: InputBuffer
    const output: OutputBuffer
    var socket: seq<Byte>      // the kernel's queue of bytes that have arrived
    var sender: Sender         // where send_fn is suspended
    var armed: bool            // EPOLLOUT is in the interest set

    ghost var arrived: seq<Byte>       // ever arrived
    ghost var edge: bool               // an input event is due
    ghost var reader: Reads.Reader     // where recv_fn is
    ghost var lent: nat                // room lent to the last async_read
    ghost var accepted: seq<Byte>      // taken by the kernel
    ghost var appended: seq<Byte>      // ever appended

    ghost predicate ReadSide()
      reads this, input, input.repr
    {
      this !in input.repr && input.Valid()
    }

    ghost predicate WriteSide()
      reads this, output, output.repr
    {
      this !in output.repr && output.Valid()
    }

    ghost function ReadView(): Reads.Conn
      reads this, input
    {
      Reads.Conn(socket, input.stream, arrived, edge, reader, lent)
    }

    ghost function WriteView(): Writes.Conn
      requires WriteSide()
      reads this, output, output.repr
    {
      Writes.Conn(output.Pending(), accepted, appended, armed, sender, [])
    }

    constructor ()
      ensures ReadSide() && WriteSide() && input.repr !! output.repr
      ensures fresh(input) && fresh(input.repr) && fresh(output) && fresh(output.repr)
      ensures ReadView() == Reads.Init() && WriteView() == Writes.Init().(sender := InWait, tasks := [])
    {
      input := new InputBuffer();
      output := new OutputBuffer();
      socket, sender, armed := [], InWait, false;
      arrived, edge, reader, lent, accepted, appended := [], false, Reads.Unregistered, 0, [], [];
    }

    // --- reading ---

    method Arrive(bytes: seq<Byte>)
      modifies this`socket, this`arrived, this`edge
      ensures ReadView() == Reads.Step(old(ReadView()), Reads.Arrive(bytes))
    {
      if bytes != [] {
        socket, arrived, edge := socket + bytes, arrived + bytes, edge || !reader.Unregistered?;
      }
    }

    /** Inside `async_read`: the bytes read so far lie at the start of the room. */
    ghost predicate Midway(readBytes: nat, maxSize: nat)
      reads this, input, input.repr
    {
      && ReadSide() && readBytes + maxSize == BLOCK_SIZE - input.lastBlock.end
      && reader == Reads.Reading(input.Stored(readBytes), maxSize)
    }

    /** A `read` that gets bytes stores them behind those it has read before. */
    method ReadSome(readBytes: nat, maxSize: nat, n: nat) returns (k: nat)
      requires Midway(readBytes, maxSize) && socket != [] && maxSize > 0
      modifies this`socket, this`reader, input.lastBlock.data
      ensures 0 < k <= maxSize && Midway(readBytes + k, maxSize - k)
      ensures ReadView() == Reads.Step(old(ReadView()), Reads.ReadSome(n)) && |socket| < old(|socket|)
    {
      k := Reads.Amount(n, |socket|, maxSize);
      input.KernelStore(readBytes, socket[..k]);
      reader := Reads.Reading(reader.gained + socket[..k], maxSize - k);
      socket := socket[k..];
    }

    /** One round of the loop of `async_read`. */
    method ReadRound(readBytes: nat, maxSize: nat, turn: Turn)
      returns (k: nat, blocked: bool, ghost run: seq<Reads.Event>)
      requires Midway(readBytes, maxSize) && maxSize > 0
      modifies this`socket, this`arrived, this`edge, this`reader, input.lastBlock.data
      ensures k <= maxSize && Midway(readBytes + k, maxSize - k)
      ensures Reads.Runs(old(ReadView()), run, ReadView()) && forall e :: e in run ==> InCall(e)
      ensures blocked ==> socket == []
      ensures turn == Turn([], false, 0) && !blocked ==> |socket| < old(|socket|)
    {
      ghost var before := ReadView();
      Arrive(turn.arrivals);
      ghost var given := ReadView();
      Reads.RunsOne(before, Reads.Arrive(turn.arrivals), given);
      k, blocked, run := 0, !turn.interrupted && socket == [], [Reads.Arrive(turn.arrivals)];
      if turn.interrupted {
        Reads.RunsTwo(before, Reads.Arrive(turn.arrivals), given, Reads.Interrupt, given);
        run := [Reads.Arrive(turn.arrivals), Reads.Interrupt];
      } else if !blocked {
        k := ReadSome(readBytes, maxSize, turn.n);
        Reads.RunsTwo(before, Reads.Arrive(turn.arrivals), given, Reads.ReadSome(turn.n), ReadView());
        run := [Reads.Arrive(turn.arrivals), Reads.ReadSome(turn.n)];
      }
    }

    /** `async_read` is called. */
    method BeginRead() returns (maxSize: nat)
      requires ReadSide() && reader.Working?
      modifies this`reader, this`lent
      ensures maxSize == BLOCK_SIZE - input.lastBlock.end > 0 && Midway(0, maxSize)
      ensures Reads.Runs(old(ReadView()), [Reads.CallRead(maxSize)], ReadView())
    {
      ghost var before := ReadView();
      var room := input.GetBuffer();
      maxSize := room.len;
      reader, lent := Reads.Reading([], maxSize), maxSize;
      Reads.RunsOne(before, Reads.CallRead(maxSize), ReadView());
    }

    /** `async_read` returns. */
    method EndRead(readBytes: nat, maxSize: nat) returns (suspend: bool)
      requires Midway(readBytes, maxSize) && (maxSize == 0 || socket == [])
      modifies this`reader, input, input.repr
      ensures ReadSide() && fresh(input.repr - old(input.repr))
      ensures Reads.Runs(old(ReadView()), [Reads.ReadSome(0)], ReadView())
      ensures suspend <==> reader.Suspended?
      ensures suspend <==> input.stream == old(input.stream)
    {
      ghost var before := ReadView();
      input.RecvAdd(readBytes);
      suspend := readBytes <= 0;
      reader := if suspend then Reads.Suspended else Reads.Working;
      Reads.RunsOne(before, Reads.ReadSome(0), ReadView());
    }

    /** The loop of `async_read`: `read` calls one behind the other into the room lent, until it is used up or
        the socket is empty. After the turns of the script the kernel adds nothing and interrupts nothing. */
    method ReadLoop(script: seq<Turn>, maxSize: nat) returns (readBytes: nat, left: nat, ghost run: seq<Reads.Event>)
      requires Midway(0, maxSize)
      modifies this`socket, this`arrived, this`edge, this`reader, input.lastBlock.data
      ensures Midway(readBytes, left) && (left == 0 || socket == [])
      ensures Reads.Runs(old(ReadView()), run, ReadView()) && forall e :: e in run ==> InCall(e)
    {
      readBytes, left, run := 0, maxSize, [];
      var todo, blocked := script, false;
      while left > 0 && !blocked
        invariant Midway(readBytes, left) && (blocked ==> socket == [])
        invariant Reads.Runs(old(ReadView()), run, ReadView()) && forall e :: e in run ==> InCall(e)
        decreases |todo|, |socket|, !blocked
      {
        var turn := if todo == [] then Turn([], false, 0) else todo[0];
        var k;
        ghost var more;
        ghost var before := ReadView();
        k, blocked, more := ReadRound(readBytes, left, turn);
        Reads.RunsOn(old(ReadView()), run, before, more, ReadView());
        readBytes, left, run := readBytes + k, left - k, run + more;
        todo := if todo == [] then [] else todo[1..];
      }
    }

    /** `async_read` up to its return. */
    method ReadAll(script: seq<Turn>) returns (readBytes: nat, left: nat, ghost run: seq<Reads.Event>)
      requires ReadSide() && reader.Working?
      modifies this`socket, this`arrived, this`edge, this`reader, this`lent, input.lastBlock.data
      ensures Midway(readBytes, left) && (left == 0 || socket == [])
      ensures Reads.Runs(old(ReadView()), [Reads.CallRead(BLOCK_SIZE - old(input.lastBlock.end))] + run, ReadView())
      ensures forall e :: e in run ==> InCall(e)
    {
      ghost var before := ReadView();
      var room := BeginRead();
      ghost var called := ReadView();
      readBytes, left, run := ReadLoop(script, room);
      Reads.RunsOn(before, [Reads.CallRead(room)], called, run, ReadView());
    }

    /** `async_read` is a run of the read protocol from its call to its return, and it suspends exactly where
        the protocol does: when the socket was empty and nothing was read. By `RunKeepsInv` it keeps the
        protocol's invariant. */
    method AsyncRead(script: seq<Turn>) returns (suspend: bool, ghost run: seq<Reads.Event>)
      requires ReadSide() && reader.Working?
      modifies this`socket, this`arrived, this`edge, this`reader, this`lent, input, input.repr
      ensures ReadSide() && fresh(input.repr - old(input.repr))
      ensures Reads.Runs(old(ReadView()), Reads.ReadCall(BLOCK_SIZE - old(input.lastBlock.end), run), ReadView())
      ensures forall e :: e in run ==> InCall(e)
      ensures suspend <==> reader.Suspended?
      ensures suspend <==> input.stream == old(input.stream)
    {
      ghost var before, room := ReadView(), BLOCK_SIZE - input.lastBlock.end;
      var readBytes, left;
      readBytes, left, run := ReadAll(script);
      ghost var last, call := ReadView(), [Reads.CallRead(room)] + run;
      suspend := EndRead(readBytes, left);
      Reads.RunsOn(before, call, last, [Reads.ReadSome(0)], ReadView());
    }

    /** The event loop reports input: the reader goes on. */
    method Deliver()
      requires reader.Suspended? && edge
      modifies this`edge, this`reader
      ensures ReadView() == Reads.Step(old(ReadView()), Reads.Deliver)
    {
      edge, reader := false, Reads.Working;
    }

    // --- writing ---

    /** One `writev` of a kernel that would take `n` bytes: it gets the first pending ones. */
    method WriteOnce(n: nat) returns (k: nat, ghost bytes: seq<Byte>)
      requires WriteSide()
      ensures k == Min(n, output.Offered()) && k <= |output.Pending()| && bytes == output.Pending()[..k]
    {
      var iovs := output.GetIovecs();
      k := Min(n, Total(iovs));
      bytes := Gather(iovs)[..k];
    }

    /** One round of the loop of `async_write`. */
    method WriteRound(nwrite: nat, todo: seq<Writes.Answer>, ghost took: seq<Byte>, ghost all: Writes.Written)
      returns (nwrite': nat, ghost bytes: seq<Byte>)
      requires WriteSide() && Writing(output.Pending(), output.Offered(), nwrite, took, todo, all)
      requires output.Offered() <= |output.Pending()| && nwrite < |output.Pending()|
      requires todo != [] && (todo[0].Wrote? || todo[0].Interrupted?)
      ensures Writing(output.Pending(), output.Offered(), nwrite', took + bytes, todo[1..], all)
    {
      WriteGoesOn(output.Pending(), output.Offered(), nwrite, took, todo, all);
      nwrite', bytes := nwrite, [];
      if todo[0].Wrote? {
        var k;
        k, bytes := WriteOnce(todo[0].n);
        nwrite' := nwrite + k;
      } else {
        assert took + [] == took;
      }
    }

    /** The loop of `async_write`: every `writev` offers the pending bytes from their start again. */
    method WriteAll(script: seq<Writes.Answer>) returns (nwrite: nat, ghost took: seq<Byte>)
      requires WriteSide()
      ensures Writes.Written(took, nwrite) ==
              Writes.WriteLoop(output.Pending(), 0, Writes.Capped(script, output.Offered()))
    {
      var needWrite, todo := output.toWriteBytes, script;
      nwrite, took := 0, [];
      ghost var pending, offered := output.Pending(), output.Offered();
      ghost var all := Writes.WriteLoop(pending, 0, Writes.Capped(script, offered));
      WriteBegins(pending, offered, script);
      output.OfferIsPartial();
      while nwrite < needWrite && todo != [] && !todo[0].WouldBlock? && !todo[0].Failed?
        invariant Writing(pending, offered, nwrite, took, todo, all)
        decreases |todo|
      {
        ghost var bytes;
        nwrite, bytes := WriteRound(nwrite, todo, took, all);
        took, todo := took + bytes, todo[1..];
      }
      WriteStops(pending, offered, nwrite, took, todo, all);
    }

    /** The bytes counted as written leave the buffer, and what is left waits for the socket. */
    method EndWrite(nwrite: nat, ghost took: seq<Byte>)
      requires WriteSide() && sender != Crashed
      modifies this`sender, this`armed, this`accepted, output, output.repr
      ensures sender == Crashed <==> nwrite > |old(output.Pending())|
      ensures sender != Crashed ==>
        && WriteSide() && fresh(output.repr - old(output.repr))
        && output.Pending() == old(output.Pending())[nwrite..] && accepted == old(accepted) + took
        && sender == (if output.Pending() == [] then InWait else InWrite)
        && armed == (old(armed) || output.Pending() != [])
    {
      var needWrite := output.toWriteBytes;
      var ends := output.SendAdd(nwrite);
      if !ends {
        sender := Crashed;
      } else {
        accepted := accepted + took;
        sender := if nwrite < needWrite then InWrite else InWait;
        armed := armed || nwrite < needWrite;
      }
    }

    /** `async_write` and its awaiter. If the calls together report more than was pending, `send_add` does not
        end. */
    method AsyncWrite(script: seq<Writes.Answer>) returns (ghost answers: seq<Writes.Answer>)
      requires WriteSide() && sender != Crashed
      modifies this`sender, this`armed, this`accepted, output, output.repr
      ensures answers == Writes.Capped(script, old(output.Offered()))
      ensures sender == Crashed <==> Writes.AsyncWrite(old(WriteView()), answers).sender == Crashed
      ensures sender != Crashed ==>
        && WriteSide() && fresh(output.repr - old(output.repr))
        && WriteView() == Writes.AsyncWrite(old(WriteView()), answers)
    {
      answers := Writes.Capped(script, output.Offered());
      var nwrite;
      ghost var took;
      nwrite, took := WriteAll(script);
      EndWrite(nwrite, took);
    }

    /** `send_fn` from the top of its loop to its next suspension. */
    method SendLoop(script: seq<Writes.Answer>) returns (ghost answers: seq<Writes.Answer>)
      requires WriteSide() && sender != Crashed
      modifies this`sender, this`armed, this`accepted, output, output.repr
      ensures answers == Writes.Capped(script, old(output.Offered()))
      ensures sender == Crashed <==> Writes.SendLoop(old(WriteView()), answers).sender == Crashed
      ensures sender != Crashed ==>
        && WriteSide() && fresh(output.repr - old(output.repr))
        && WriteView() == Writes.SendLoop(old(WriteView()), answers)
    {
      answers := Writes.Capped(script, output.Offered());
      if output.toWriteBytes > 0 {
        answers := AsyncWrite(script);
      } else {
        sender := InWait;
      }
    }

    /** Runs `send_fn` from where it is suspended to its next suspension. */
    method ResumeWrite(script: seq<Writes.Answer>) returns (ghost answers: seq<Writes.Answer>)
      requires WriteSide() && (sender == InWait || sender == InWrite)
      modifies this`sender, this`armed, this`accepted, output, output.repr
      ensures answers == Writes.Capped(script, old(output.Offered()))
      ensures sender == Crashed <==> Writes.ResumeWrite(old(WriteView()), answers).sender == Crashed
      ensures sender != Crashed ==>
        && WriteSide() && fresh(output.repr - old(output.repr))
        && WriteView() == Writes.ResumeWrite(old(WriteView()), answers)
    {
      if sender == InWait {
        answers := AsyncWrite(script);
      } else {
        answers := SendLoop(script);
      }
    }

    /** A frame is appended. */
    method Enqueue(f: Frame)
      requires WriteSide() && Sendable(f)
      modifies this`appended, output, output.repr
      ensures WriteSide() && fresh(output.repr - old(output.repr))
      ensures WriteView() == Writes.Enqueue(old(WriteView()), EncodeFrame(f))
      ensures output.Pending() == old(output.Pending()) + EncodeFrame(f)
    {
      appended := appended + EncodeFrame(f);
      WriteFrame(output, f);
    }

    /** What a step of the write protocol has done to the connection. */
    twostate predicate Stepped(e: Writes.Event)
      requires old(WriteSide())
      reads this, output, output.repr
    {
      var c := Writes.Step(old(WriteView()), e);
      && (sender == Crashed <==> c.sender == Crashed)
      && (sender != Crashed ==> WriteSide() && fresh(output.repr - old(output.repr)) && WriteView() == c)
    }

    /** A response is appended and `send_fn` is resumed. */
    method Respond(f: Frame, script: seq<Writes.Answer>) returns (ghost answers: seq<Writes.Answer>)
      requires WriteSide() && (sender == InWait || sender == InWrite) && Sendable(f)
      modifies this`appended, this`sender, this`armed, this`accepted, output, output.repr
      ensures Stepped(Writes.Respond(EncodeFrame(f), answers))
    {
      Enqueue(f);
      answers := ResumeWrite(script);
    }

    /** The socket is writable: write interest is dropped and `send_fn` is resumed. */
    method Writable(script: seq<Writes.Answer>) returns (ghost answers: seq<Writes.Answer>)
      requires WriteSide() && (sender == InWait || sender == InWrite) && armed
      modifies this`sender, this`armed, this`accepted, output, output.repr
      ensures Stepped(Writes.Writable(answers))
    {
      armed := false;
      answers := ResumeWrite(script);
    }

    /** A step whose writes are exact does not crash, and keeps the protocol's invariant: nothing is lost or
        repeated, and what is left waits with write interest armed. */
    twostate lemma ExactStepsAreSafe(e: Writes.Event)
      requires old(WriteSide()) && Writes.Inv(old(WriteView())) && Writes.Clean(old(WriteView()), e) && Stepped(e)
      ensures sender != Crashed && WriteSide() && Writes.Inv(WriteView())
    {
      Writes.StepKeepsInv(old(WriteView()), e);
    }

    /** Output beyond IOV_MAX blocks is offered in part, so even a kernel that takes all it is offered gets
        the same bytes twice. */
    lemma PartialOfferRepeats(n: nat)
      requires WriteSide() && output.Pending() == Writes.Marked(|output.Pending()|) && n >= |output.Pending()|
      requires output.curBlock.begin + |output.Pending()| > IOV_MAX * BLOCK_SIZE
      ensures !Writes.Exact(output.Pending(), Writes.Capped([Writes.Wrote(n), Writes.Wrote(n)], output.Offered()))
    {
      output.OfferIsPartial();
      var size, k := |output.Pending()|, output.Offered();
      var answers := Writes.Capped([Writes.Wrote(n), Writes.Wrote(n)], k);
      assert answers == [Writes.Wrote(k), Writes.Wrote(k)] && answers[1..] == [Writes.Wrote(k)];
      assert Writes.Accepts(size, k, answers[1..]) == 1;
      Writes.TwoAcceptsRepeat(size, answers);
    }
  }
}
