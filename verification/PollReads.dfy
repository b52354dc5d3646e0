/** The read side of a polled connection under edge-triggered events.

    Bytes may arrive between any two `read` calls. An arrival raises an edge; the event loop consumes it
    by resuming the reader, and nothing else resumes the reader. The connection stays open. */
module PollReads {
  import opened BufferBlocks

  /** Where `recv_fn` is. `Reading` is inside `async_read`, with what the call has read so far and the
      room that is left of what `get_buffer` lent. */
  datatype Reader = Unregistered | Working | Reading(gained: seq<Byte>, room: nat) | Suspended

  datatype Conn = Conn(
    socket: seq<Byte>,    // arrived and not read
    stream: seq<Byte>,    // taken into the read buffer
    arrived: seq<Byte>,   // ever arrived
    edge: bool,           // an input event is due
    reader: Reader,
    lent: nat)            // room lent to the current or last async_read

  datatype Event =
    | Arrive(bytes: seq<Byte>)
    | Register
    | CallRead(room: nat)
    | ReadSome(n: nat)
    | Interrupt
    | Deliver
    | Rearm               // the interest set is modified, which reports readiness again

  function Init(): Conn { Conn([], [], [], false, Unregistered, 0) }

  /** `async_read` returns: take the bytes in, and suspend if there are none. */
  function Finish(c: Conn): Conn
    requires c.reader.Reading?
  {
    c.(stream := c.stream + c.reader.gained, reader := if c.reader.gained == [] then Suspended else Working)
  }

  /** How many bytes one `read` gets: `n` if that is possible, or else as many as possible. */
  function Amount(n: nat, available: nat, room: nat): (k: nat)
    requires available > 0 && room > 0
    ensures 0 < k <= available && k <= room && (n == 0 ==> k == available || k == room)
  {
    var most := if available < room then available else room;
    if 0 < n < most then n else most
  }

  function Step(c: Conn, e: Event): Conn {
    match e
    case Arrive(bytes) =>
      if bytes == [] then c
      else c.(socket := c.socket + bytes, arrived := c.arrived + bytes, edge := c.edge || !c.reader.Unregistered?)
    case Register => if c.reader.Unregistered? then c.(reader := Working, edge := c.socket != []) else c
    case CallRead(room) => if c.reader.Working? && room > 0 then c.(reader := Reading([], room), lent := room) else c
    case ReadSome(n) =>
      if !c.reader.Reading? then c
      else if c.reader.room == 0 || c.socket == [] then Finish(c)
      else
        var k := Amount(n, |c.socket|, c.reader.room);
        c.(socket := c.socket[k..], reader := Reading(c.reader.gained + c.socket[..k], c.reader.room - k))
    case Interrupt => c
    case Deliver => if c.reader.Suspended? && c.edge then c.(edge := false, reader := Working) else c
    case Rearm => if c.reader.Unregistered? then c else c.(edge := c.edge || c.socket != [])
  }

  /** The state after events that start at `c`. */
  function After(c: Conn, es: seq<Event>): Conn {
    if es == [] then c else Step(After(c, es[..|es| - 1]), es[|es| - 1])
  }

  function Exec(es: seq<Event>): Conn { After(Init(), es) }

  /** The events `es` lead from `c` to `c2`. */
  ghost predicate Runs(c: Conn, es: seq<Event>, c2: Conn) { After(c, es) == c2 }

  lemma RunsTwo(c: Conn, d: Event, c2: Conn, e: Event, c3: Conn)
    requires c2 == Step(c, d) && c3 == Step(c2, e)
    ensures Runs(c, [d], c2) && Runs(c, [d, e], c3)
  {
    assert [d, e][..1] == [d];
  }

  lemma RunsOne(c: Conn, d: Event, c2: Conn)
    requires c2 == Step(c, d)
    ensures Runs(c, [d], c2)
  {
  }

  lemma RunsOn(c: Conn, es: seq<Event>, c2: Conn, more: seq<Event>, c3: Conn)
    requires Runs(c, es, c2) && Runs(c2, more, c3)
    ensures Runs(c, es + more, c3)
  {
    AfterConcat(c, es, more);
  }

  lemma {:induction false} AfterConcat(c: Conn, es: seq<Event>, more: seq<Event>)
    ensures After(c, es + more) == After(After(c, es), more)
  {
    if more == [] {
      assert es + more == es;
    } else {
      AfterConcat(c, es, more[..|more| - 1]);
      assert (es + more)[..|es + more| - 1] == es + more[..|more| - 1];
    }
  }

  function InHand(c: Conn): seq<Byte> { if c.reader.Reading? then c.reader.gained else [] }

  ghost predicate Inv(c: Conn) {
    && c.stream + InHand(c) + c.socket == c.arrived
    && (c.reader.Suspended? && c.socket != [] ==> c.edge)
    && (c.reader.Reading? ==> |c.reader.gained| + c.reader.room == c.lent > 0)
  }

  lemma ReadKeepsInv(c: Conn, n: nat)
    requires Inv(c) && c.reader.Reading?
    ensures Inv(Step(c, ReadSome(n)))
  {
    var g := c.reader.gained;
    if c.reader.room == 0 || c.socket == [] {
      assert c.stream + g + [] == c.stream + g;
    } else {
      var k := Amount(n, |c.socket|, c.reader.room);
      assert c.stream + (g + c.socket[..k]) + c.socket[k..] == c.stream + g + c.socket;
    }
  }

  lemma StepKeepsInv(c: Conn, e: Event)
    requires Inv(c)
    ensures Inv(Step(c, e))
  {
    match e
    case Arrive(bytes) =>
      assert c.stream + InHand(c) + (c.socket + bytes) == c.stream + InHand(c) + c.socket + bytes;
    case ReadSome(n) => if c.reader.Reading? { ReadKeepsInv(c, n); }
    case _ =>
  }

  lemma {:induction false} AfterKeepsInv(c: Conn, es: seq<Event>)
    requires Inv(c)
    ensures Inv(After(c, es))
  {
    if es != [] {
      AfterKeepsInv(c, es[..|es| - 1]);
      StepKeepsInv(After(c, es[..|es| - 1]), es[|es| - 1]);
    }
  }

  /** The events of a call of `async_read`, with what happens in between. */
  function ReadCall(room: nat, between: seq<Event>): seq<Event> { [CallRead(room)] + between + [ReadSome(0)] }

  /** A run from a state that keeps the invariant ends in one. */
  lemma RunKeepsInv(c: Conn, es: seq<Event>, c2: Conn)
    requires Inv(c) && Runs(c, es, c2)
    ensures Inv(c2)
  {
    AfterKeepsInv(c, es);
  }

  /** In every run, bytes that are available behind a suspended reader have an event due that will resume
      it; no byte is lost or reordered; and a call never reads more than the room it was lent. */
  lemma NoMissedInput(es: seq<Event>)
    ensures Inv(Exec(es))
  {
    AfterKeepsInv(Init(), es);
  }

  /** A reader suspends only right after finding the socket empty with no bytes gained. */
  lemma SuspendsOnlyWhenEmpty(es: seq<Event>, e: Event)
    requires !Exec(es).reader.Suspended? && Step(Exec(es), e).reader.Suspended?
    ensures var c := Exec(es);
      c.reader == Reading([], c.lent) && c.lent > 0 && c.socket == [] && Step(c, e).socket == []
  {
    NoMissedInput(es);
  }

  /** A call that has come to its end, with the room used up or the socket empty, suspends if and only if it has
      gained nothing from an empty socket; every other `read` leaves it in the call. */
  lemma SuspendsIffNothingThere(c: Conn, n: nat)
    requires Inv(c) && c.reader.Reading?
    ensures Step(c, ReadSome(n)).reader.Suspended? <==> c.reader.gained == [] && c.socket == []
    ensures Step(c, ReadSome(n)).reader.Working? <==> c.reader.gained != [] && (c.socket == [] || c.reader.room == 0)
  {
  }

  /** Registering a reader, or changing the interest set of one, reports bytes that are already there. */
  lemma RegistrationReports(c: Conn)
    requires c.socket != []
    ensures c.reader.Unregistered? ==> Step(c, Register).edge && Step(c, Register).reader.Working?
    ensures !c.reader.Unregistered? ==> Step(c, Rearm).edge
  {
  }

  /** All bytes that have arrived, in order. */
  function Arrived(es: seq<Event>): seq<Byte> {
    if es == [] then [] else
    var front, e := es[..|es| - 1], es[|es| - 1];
    if e.Arrive? then Arrived(front) + e.bytes else Arrived(front)
  }

  /** What the reader has, what it has in hand and what waits in the socket are together all that has arrived. */
  lemma {:induction false} ReaderGetsWhatArrived(es: seq<Event>)
    ensures var c := Exec(es); c.stream + InHand(c) + c.socket == Arrived(es)
  {
    NoMissedInput(es);
    ArrivedIsRecorded(es);
  }

  lemma {:induction false} ArrivedIsRecorded(es: seq<Event>)
    ensures Exec(es).arrived == Arrived(es)
  {
    if es != [] {
      ArrivedIsRecorded(es[..|es| - 1]);
    }
  }

  /** Bytes behind a suspended reader reach it: the event that is due resumes it, and its next call takes as many
      of them as there is room for. */
  lemma SuspendedReaderGoesOn(c: Conn, room: nat)
    requires Inv(c) && c.reader.Suspended? && c.socket != [] && room > 0
    ensures var k := Amount(0, |c.socket|, room);
      After(c, [Deliver] + [CallRead(room)] + [ReadSome(0)] + [ReadSome(0)]) ==
      c.(edge := false, lent := room, stream := c.stream + c.socket[..k], socket := c.socket[k..], reader := Working)
  {
    var k := Amount(0, |c.socket|, room);
    Snoc(c, [], Deliver);
    Snoc(c, [Deliver], CallRead(room));
    Snoc(c, [Deliver] + [CallRead(room)], ReadSome(0));
    Snoc(c, [Deliver] + [CallRead(room)] + [ReadSome(0)], ReadSome(0));
    assert [] + c.socket[..k] == c.socket[..k];
  }

  lemma Snoc(c: Conn, es: seq<Event>, e: Event)
    ensures After(c, es + [e]) == Step(After(c, es), e) && ([] + [e] == [e])
  {
    assert (es + [e])[..|es + [e]| - 1] == es;
  }
}
