/** The write side of a polled connection, between two turns of the event loop.

    The kernel's answers to the `writev` calls of one `async_write` are a script; when the script ends,
    the next call would block. Event registration succeeds and the connection stays open. */
module PollWrites {
  import opened BufferBlocks
  import opened SendTasks

  datatype Answer = Wrote(n: nat) | WouldBlock | Interrupted | Failed

  datatype Written = Written(bytes: seq<Byte>, total: nat)

  /** The loop of `async_write`. Every call offers the pending bytes from their start again. */
  function WriteLoop(pending: seq<Byte>, nwrite: nat, script: seq<Answer>): Written
    decreases script
  {
    if nwrite >= |pending| || script == [] then Written([], nwrite)
    else
      match script[0]
      case Wrote(n) =>
        var k := if n <= |pending| then n else |pending|;
        var rest := WriteLoop(pending, nwrite + k, script[1..]);
        Written(pending[..k] + rest.bytes, rest.total)
      case Interrupted => WriteLoop(pending, nwrite, script[1..])
      case _ => Written([], nwrite)
  }

  /** The answers of a kernel that takes no more than it is offered. */
  function Capped(script: seq<Answer>, offered: nat): seq<Answer> {
    seq(|script|, i requires 0 <= i < |script| => Cap(script[i], offered))
  }

  function Cap(a: Answer, offered: nat): Answer {
    if a.Wrote? && a.n > offered then Wrote(offered) else a
  }

  /** How many calls of the loop get bytes accepted. */
  function Accepts(size: nat, nwrite: nat, script: seq<Answer>): nat
    decreases script
  {
    if nwrite >= size || script == [] then 0
    else
      match script[0]
      case Wrote(n) =>
        var k := if n <= size then n else size;
        (if k > 0 then 1 else 0) + Accepts(size, nwrite + k, script[1..])
      case Interrupted => Accepts(size, nwrite, script[1..])
      case _ => 0
  }

  /** With one accepting call at most, the kernel has exactly the bytes that are counted as written. */
  lemma {:induction false} OneAcceptIsExact(pending: seq<Byte>, nwrite: nat, script: seq<Answer>)
    requires nwrite <= |pending| && (nwrite == 0 || Accepts(|pending|, nwrite, script) == 0)
    requires Accepts(|pending|, nwrite, script) <= 1
    ensures var w := WriteLoop(pending, nwrite, script);
      nwrite <= w.total <= |pending| && w.bytes == pending[nwrite..w.total]
    decreases |script|
  {
    if nwrite < |pending| && script != [] {
      match script[0]
      case Wrote(n) =>
        var k := if n <= |pending| then n else |pending|;
        OneAcceptIsExact(pending, nwrite + k, script[1..]);
      case Interrupted => OneAcceptIsExact(pending, nwrite, script[1..]);
      case _ =>
    }
  }

  /** A one followed by zeros: any second accepting call shows. */
  function Marked(size: nat): seq<Byte> { seq(size, i => if i == 0 then 1 else 0) }

  ghost predicate Exact(pending: seq<Byte>, script: seq<Answer>) {
    var w := WriteLoop(pending, 0, script);
    w.total <= |pending| && w.bytes == pending[..w.total]
  }

  lemma {:induction false} LoopBytes(pending: seq<Byte>, nwrite: nat, script: seq<Answer>)
    ensures var w := WriteLoop(pending, nwrite, script); w.total == nwrite + |w.bytes|
    ensures Accepts(|pending|, nwrite, script) > 0 ==>
      WriteLoop(pending, nwrite, script).bytes != [] && WriteLoop(pending, nwrite, script).bytes[0] == pending[0]
    decreases |script|
  {
    if nwrite < |pending| && script != [] {
      match script[0]
      case Wrote(n) =>
        var k := if n <= |pending| then n else |pending|;
        LoopBytes(pending, nwrite + k, script[1..]);
      case Interrupted => LoopBytes(pending, nwrite, script[1..]);
      case _ =>
    }
  }

  lemma {:induction false} TwoAcceptsRepeat(size: nat, script: seq<Answer>)
    requires Accepts(size, 0, script) >= 2
    ensures !Exact(Marked(size), script)
    decreases |script|
  {
    var pending := Marked(size);
    match script[0]
    case Wrote(n) =>
      var k := if n <= size then n else size;
      if k == 0 {
        TwoAcceptsRepeat(size, script[1..]);
        assert pending[..0] + WriteLoop(pending, 0, script[1..]).bytes == WriteLoop(pending, 0, script[1..]).bytes;
      } else {
        LoopBytes(pending, k, script[1..]);
        LoopBytes(pending, 0, script);
        assert WriteLoop(pending, 0, script).bytes[k] == 1;
      }
    case Interrupted => TwoAcceptsRepeat(size, script[1..]);
  }

  /** Whatever the buffer holds, the kernel gets a prefix of it and the count is right, if and only if at
      most one call of the loop gets bytes accepted. */
  lemma ExactIffOneAccept(size: nat, script: seq<Answer>)
    ensures (forall pending: seq<Byte> :: |pending| == size ==> Exact(pending, script)) <==>
            Accepts(size, 0, script) <= 1
  {
    if Accepts(size, 0, script) <= 1 {
      forall pending: seq<Byte> | |pending| == size ensures Exact(pending, script) {
        OneAcceptIsExact(pending, 0, script);
      }
    } else {
      TwoAcceptsRepeat(size, script);
      assert |Marked(size)| == size;
    }
  }

  // --- the connection ---

  datatype Conn = Conn(
    pending: seq<Byte>,    // write_buf_
    accepted: seq<Byte>,   // bytes the kernel has taken
    appended: seq<Byte>,   // bytes ever appended
    armed: bool,           // EPOLLOUT is in the interest set
    sender: Sender,        // where send_fn is suspended
    tasks: seq<Task>)      // the executor's queue

  datatype Event =
    | Spawn(data: seq<Byte>)
    | RunTask(script: seq<Answer>)
    | Respond(data: seq<Byte>, script: seq<Answer>)
    | Writable(script: seq<Answer>)

  function Init(): Conn { Conn([], [], [], false, NotStarted, [StartSend, StartRecv]) }

  /** `async_write` and the awaiter: what is left after the loop waits for the socket. */
  function AsyncWrite(c: Conn, script: seq<Answer>): Conn {
    var w := WriteLoop(c.pending, 0, script);
    if w.total > |c.pending| then c.(sender := Crashed)
    else
      var c2 := c.(pending := c.pending[w.total..], accepted := c.accepted + w.bytes);
      if w.total < |c.pending| then c2.(sender := InWrite, armed := true) else c2.(sender := InWait)
  }

  /** `send_fn` from the top of its loop to its next suspension. */
  function SendLoop(c: Conn, script: seq<Answer>): Conn {
    if c.pending == [] then c.(sender := InWait) else AsyncWrite(c, script)
  }

  /** `resume_write`. From `WaitWriteAwaiter` the coroutine goes straight on to `async_write`. */
  function ResumeWrite(c: Conn, script: seq<Answer>): Conn {
    match c.sender
    case InWait => AsyncWrite(c, script)
    case InWrite => SendLoop(c, script)
    case _ => c.(sender := Crashed)
  }

  function Enqueue(c: Conn, data: seq<Byte>): Conn {
    c.(pending := c.pending + data, appended := c.appended + data)
  }

  predicate Enabled(c: Conn, e: Event) {
    match e
    case Spawn(_) => true
    case RunTask(_) => c.tasks != []
    case Respond(_, _) => StartRecv !in c.tasks
    case Writable(_) => c.armed
  }

  function Step(c: Conn, e: Event): Conn {
    if !Enabled(c, e) then c else
    match e
    case Spawn(data) => c.(tasks := c.tasks + [Request(data)])
    case RunTask(script) =>
      var c2 := c.(tasks := c.tasks[1..]);
      (match c.tasks[0]
       case StartSend => SendLoop(c2, script)
       case StartRecv => c2
       case Request(data) => ResumeWrite(Enqueue(c2, data), script))
    case Respond(data, script) => ResumeWrite(Enqueue(c, data), script)
    case Writable(script) => ResumeWrite(c.(armed := false), script)
  }

  function Exec(es: seq<Event>): Conn {
    if es == [] then Init() else Step(Exec(es[..|es| - 1]), es[|es| - 1])
  }

  /** The event's writes get at most one call accepted: a short `writev` is followed by EAGAIN. */
  predicate Clean(c: Conn, e: Event) {
    match e
    case Spawn(_) => true
    case RunTask(script) =>
      c.tasks == [] || Accepts(|c.pending| + (if c.tasks[0].Request? then |c.tasks[0].data| else 0), 0, script) <= 1
    case Respond(data, script) => Accepts(|c.pending| + |data|, 0, script) <= 1
    case Writable(script) => Accepts(|c.pending|, 0, script) <= 1
  }

  predicate CleanRun(es: seq<Event>) {
    es == [] || (CleanRun(es[..|es| - 1]) && Clean(Exec(es[..|es| - 1]), es[|es| - 1]))
  }

  /** Nothing is lost or repeated, pending output waits for the socket with write interest armed, and
      `send_fn` is started before anything can resume it. */
  ghost predicate Inv(c: Conn) {
    && c.accepted + c.pending == c.appended
    && (match c.sender
        case Crashed => false
        case NotStarted => c.pending == [] && !c.armed && Fresh(c.tasks)
        case InWait => c.pending == [] && Started(c.tasks)
        case InWrite => c.pending != [] && c.armed && Started(c.tasks))
  }

  lemma AsyncWriteKeepsInv(c: Conn, script: seq<Answer>)
    requires c.accepted + c.pending == c.appended && Started(c.tasks) && Accepts(|c.pending|, 0, script) <= 1
    ensures Inv(AsyncWrite(c, script))
  {
    OneAcceptIsExact(c.pending, 0, script);
    var w := WriteLoop(c.pending, 0, script);
    assert c.pending[..w.total] + c.pending[w.total..] == c.pending;
    assert c.accepted + c.pending[..w.total] + c.pending[w.total..] == c.appended;
  }

  lemma StepKeepsInv(c: Conn, e: Event)
    requires Inv(c) && Clean(c, e)
    ensures Inv(Step(c, e))
  {
    if Enabled(c, e) {
      match e
      case Spawn(_) =>
      case RunTask(script) => RunTaskKeepsInv(c, script);
      case Respond(data, script) =>
        assert c.accepted + (c.pending + data) == c.accepted + c.pending + data;
        AsyncWriteKeepsInv(Enqueue(c, data), script);
      case Writable(script) => AsyncWriteKeepsInv(c.(armed := false), script);
    }
  }

  lemma RunTaskKeepsInv(c: Conn, script: seq<Answer>)
    requires Inv(c) && Clean(c, RunTask(script)) && c.tasks != []
    ensures Inv(Step(c, RunTask(script)))
  {
    var c2 := c.(tasks := c.tasks[1..]);
    if c.tasks[0].Request? {
      var data := c.tasks[0].data;
      assert c.accepted + (c.pending + data) == c.accepted + c.pending + data;
      AsyncWriteKeepsInv(Enqueue(c2, data), script);
    }
  }

  /** In every clean run nothing is lost, repeated or reordered, every resume finds `send_fn` suspended,
      and no output is stranded: what is pending waits with write interest armed. */
  lemma {:induction false} NothingStranded(es: seq<Event>)
    requires CleanRun(es)
    ensures Inv(Exec(es)) && (Exec(es).pending != [] ==> Exec(es).armed && Exec(es).sender == InWrite)
  {
    if es != [] {
      NothingStranded(es[..|es| - 1]);
      StepKeepsInv(Exec(es[..|es| - 1]), es[|es| - 1]);
    }
  }

  // --- what goes in comes out ---

  /** The tasks that the executor was given, in order. */
  function Spawned(es: seq<Event>): seq<Task> {
    if es == [] then [StartSend, StartRecv] else
    var front, e := es[..|es| - 1], es[|es| - 1];
    if e.Spawn? then Spawned(front) + [Request(e.data)] else Spawned(front)
  }

  /** The tasks that it has run, in order. */
  function Ran(es: seq<Event>): seq<Task> {
    if es == [] then [] else
    var front, e := es[..|es| - 1], es[|es| - 1];
    if e.RunTask? && Exec(front).tasks != [] then Ran(front) + [Exec(front).tasks[0]] else Ran(front)
  }

  /** What one event gives to the connection to write. */
  function Gives(c: Conn, e: Event): seq<Byte> {
    if !Enabled(c, e) then []
    else if e.Respond? then e.data
    else if e.RunTask? && c.tasks[0].Request? then c.tasks[0].data
    else []
  }

  /** All that was given to the connection to write: responses and the requests that were run, in order. */
  function Given(es: seq<Event>): seq<Byte> {
    if es == [] then [] else Given(es[..|es| - 1]) + Gives(Exec(es[..|es| - 1]), es[|es| - 1])
  }

  /** How many bytes a kernel with these answers takes of `size` bytes offered over and over, until they are all
      counted or it blocks. */
  function Takes(size: nat, counted: nat, script: seq<Answer>): nat
    decreases script
  {
    if counted >= size || script == [] || script[0].WouldBlock? || script[0].Failed? then 0
    else
      var k := if script[0].Wrote? then (if script[0].n <= size then script[0].n else size) else 0;
      k + Takes(size, counted + k, script[1..])
  }

  lemma {:induction false} LoopTakes(pending: seq<Byte>, nwrite: nat, script: seq<Answer>)
    ensures WriteLoop(pending, nwrite, script).total == nwrite + Takes(|pending|, nwrite, script)
    decreases |script|
  {
    if nwrite < |pending| && script != [] {
      match script[0]
      case Wrote(n) => LoopTakes(pending, nwrite + (if n <= |pending| then n else |pending|), script[1..]);
      case Interrupted => LoopTakes(pending, nwrite, script[1..]);
      case _ =>
    }
  }

  /** The event resumes `send_fn` or runs a request. */
  predicate Writes(c: Conn, e: Event) {
    Enabled(c, e) && (e.Respond? || e.Writable? || (e.RunTask? && c.tasks[0].Request?))
  }

  lemma ResumeTakes(c: Conn, script: seq<Answer>)
    requires (c.sender == InWait || c.sender == InWrite) && Accepts(|c.pending|, 0, script) <= 1
    ensures var d, n := ResumeWrite(c, script), Takes(|c.pending|, 0, script);
      && n <= |c.pending| && d.pending == c.pending[n..] && |d.accepted| == |c.accepted| + n
      && d.appended == c.appended && d.tasks == c.tasks
  {
    OneAcceptIsExact(c.pending, 0, script);
    LoopTakes(c.pending, 0, script);
    assert c.pending[0..] == c.pending;
  }

  /** An event adds what it gives behind the pending bytes, and the kernel takes as many of the first of them as
      its answers say; nothing else is written. */
  lemma StepRecords(c: Conn, e: Event)
    requires Inv(c) && Clean(c, e)
    ensures var d, all := Step(c, e), c.pending + Gives(c, e);
      && d.appended == c.appended + Gives(c, e)
      && (var n := if Writes(c, e) then Takes(|all|, 0, e.script) else 0;
          n <= |all| && d.pending == all[n..] && |d.accepted| == |c.accepted| + n)
      && d.tasks == (if e.Spawn? then c.tasks + [Request(e.data)]
                     else if e.RunTask? && c.tasks != [] then c.tasks[1..] else c.tasks)
  {
    var all := c.pending + Gives(c, e);
    if Writes(c, e) {
      var c2 := if e.RunTask? then c.(tasks := c.tasks[1..]) else if e.Writable? then c.(armed := false) else c;
      assert e.Writable? ==> all == c.pending;
      ResumeTakes(c2.(pending := all, appended := c.appended + Gives(c, e)), e.script);
      assert e.Writable? ==> c.appended + [] == c.appended;
    } else {
      assert all == c.pending && all[0..] == all;
    }
  }

  /** What the kernel has got and what is pending are together all that was given, in order. */
  lemma {:induction false} KernelGetsWhatWasGiven(es: seq<Event>)
    requires CleanRun(es)
    ensures Exec(es).accepted + Exec(es).pending == Given(es) && Ran(es) + Exec(es).tasks == Spawned(es)
  {
    NothingStranded(es);
    if es != [] {
      var front, e := es[..|es| - 1], es[|es| - 1];
      KernelGetsWhatWasGiven(front);
      NothingStranded(front);
      StepRecords(Exec(front), e);
      QueueMoves(Ran(front), Exec(front).tasks, e);
    }
  }

  lemma QueueMoves(ran: seq<Task>, q: seq<Task>, e: Event)
    ensures e.Spawn? ==> ran + (q + [Request(e.data)]) == ran + q + [Request(e.data)]
    ensures q != [] ==> ran + [q[0]] + q[1..] == ran + q
  {
  }

  /** An output event consumes the write interest: it is armed afterwards if and only if output is left. */
  lemma WritableConsumesInterest(c: Conn, script: seq<Answer>)
    requires Inv(c) && c.armed && Clean(c, Writable(script))
    ensures var d := Step(c, Writable(script)); d.armed <==> d.pending != []
  {
    OneAcceptIsExact(c.pending, 0, script);
  }
}
