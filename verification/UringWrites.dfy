/** The write side of a connection on io_uring, between two turns of the event loop.

    `send_fn` is a coroutine: a resume runs it to its next suspension. Completions, responses and
    spurious resumes arrive in any order. A submission names the first `reach` pending bytes: all of
    them, unless they fill more than IOV_MAX blocks. */
module UringWrites {
  import opened BufferBlocks
  import opened SendTasks

  datatype Conn = Conn(
    pending: seq<Byte>,              // write_buf_
    backLeft: int,                   // back_left_
    flying: seq<seq<Byte>>,          // writes submitted and not completed
    accepted: seq<Byte>,             // bytes the kernel has taken
    appended: seq<Byte>,             // bytes ever appended
    sender: Sender,
    tasks: seq<Task>)                // the executor's queue

  datatype Event =
    | Spawn(data: seq<Byte>)
    | RunTask(reach: nat)
    | Respond(data: seq<Byte>, reach: nat)
    | Spurious(reach: nat)
    | Complete(res: nat, reach: nat)

  function Init(): Conn { Conn([], 0, [], [], [], NotStarted, [StartSend, StartRecv]) }

  function Reach(c: Conn, reach: nat): nat {
    if |c.pending| == 0 then 0 else if 0 < reach <= |c.pending| then reach else |c.pending|
  }

  /** `async_write`: suspend behind an unfinished write, submit what is pending, or go on. */
  function AsyncWrite(c: Conn, reach: nat): (Conn, bool) {
    if c.backLeft > 0 then (c, true)
    else if |c.pending| == 0 then (c.(backLeft := 0), false)
    else (c.(backLeft := |c.pending|, flying := c.flying + [c.pending[..Reach(c, reach)]]), true)
  }

  /** The loop of `send_fn` from its top to the next suspension. */
  function SendLoop(c: Conn, reach: nat): Conn {
    if c.pending == [] then c.(sender := InWait)
    else
      var (c2, suspend) := AsyncWrite(c, reach);
      c2.(sender := if suspend then InWrite else InWait)
  }

  /** `resume_write`. */
  function ResumeWrite(c: Conn, reach: nat): Conn {
    match c.sender
    case InWait =>
      var (c2, suspend) := AsyncWrite(c, reach);
      if suspend then c2.(sender := InWrite) else SendLoop(c2, reach)
    case InWrite => SendLoop(c, reach)
    case _ => c.(sender := Crashed)
  }

  function SendAdd(c: Conn, n: nat): Conn
    requires n <= |c.pending|
  {
    c.(backLeft := c.backLeft - n, pending := c.pending[n..])
  }

  /** A response goes behind whatever is in flight. */
  function Enqueue(c: Conn, data: seq<Byte>): Conn {
    c.(pending := c.pending + data, appended := c.appended + data)
  }

  /** The kernel has taken `n` bytes of the write in flight. */
  function Retire(c: Conn, n: nat): Conn
    requires c.flying != [] && n <= |c.flying[0]| && n <= |c.pending|
  {
    SendAdd(c.(accepted := c.accepted + c.flying[0][..n], flying := c.flying[1..]), n)
  }

  predicate Enabled(c: Conn, e: Event) {
    match e
    case Spawn(_) => true
    case RunTask(_) => c.tasks != []
    case Respond(_, _) => StartRecv !in c.tasks
    case Spurious(_) => StartRecv !in c.tasks
    case Complete(res, _) => c.flying != [] && res <= |c.flying[0]|
  }

  /** One event, with everything it runs. An event that is not enabled changes nothing. */
  function Step(c: Conn, e: Event): Conn {
    if !Enabled(c, e) then c else
    match e
    case Spawn(data) => c.(tasks := c.tasks + [Request(data)])
    case RunTask(reach) =>
      var c2 := c.(tasks := c.tasks[1..]);
      (match c.tasks[0]
       case StartSend => SendLoop(c2, reach)
       case StartRecv => c2
       case Request(data) => ResumeWrite(Enqueue(c2, data), reach))
    case Respond(data, reach) => ResumeWrite(Enqueue(c, data), reach)
    case Spurious(reach) => ResumeWrite(c, reach)
    case Complete(res, reach) =>
      if res > |c.pending| then c.(sender := Crashed) else ResumeWrite(Retire(c, res), reach)
  }

  function Exec(es: seq<Event>): Conn {
    if es == [] then Init() else Step(Exec(es[..|es| - 1]), es[|es| - 1])
  }

  /** A completion that leaves part of the submitted backlog unwritten. */
  predicate Short(c: Conn, e: Event) {
    e.Complete? && Enabled(c, e) && e.res < c.backLeft
  }

  predicate HadShort(es: seq<Event>) {
    es != [] && (HadShort(es[..|es| - 1]) || Short(Exec(es[..|es| - 1]), es[|es| - 1]))
  }

  // --- the invariant ---

  ghost predicate Inv(c: Conn) {
    && |c.flying| <= 1
    && 0 <= c.backLeft <= |c.pending|
    && (c.flying != [] ==> c.flying[0] <= c.pending && 0 < |c.flying[0]| <= c.backLeft)
    && c.accepted + c.pending == c.appended
    && (c.sender == InWait ==> c.pending == [])
    && (match c.sender
        case NotStarted => Fresh(c.tasks) && c.pending == []
        case Crashed => false
        case _ => Started(c.tasks))
  }

  lemma ResumeKeepsInv(c: Conn, reach: nat)
    requires Inv(c.(sender := InWrite))
    requires c.sender == InWait || c.sender == InWrite
    ensures Inv(ResumeWrite(c, reach))
  {
  }

  lemma SubmitKeepsInv(c: Conn, reach: nat)
    requires Inv(c) && c.sender == InWrite && c.backLeft == 0 < reach <= |c.pending|
    ensures c.flying == []
    ensures Inv(c.(backLeft := |c.pending|, flying := c.flying + [c.pending[..reach]]))
  {
  }

  lemma EnqueueKeepsInv(c: Conn, data: seq<Byte>)
    requires Inv(c) && c.sender != NotStarted
    ensures Inv(Enqueue(c, data).(sender := InWrite))
  {
    assert c.accepted + (c.pending + data) == c.accepted + c.pending + data;
  }

  lemma RetireKeepsInv(c: Conn, n: nat)
    requires Inv(c) && c.flying != [] && n <= |c.flying[0]|
    ensures n <= |c.pending| && Inv(Retire(c, n).(sender := InWrite))
  {
    assert c.flying[0][..n] + c.pending[n..] == c.pending;
  }

  lemma RunTaskKeepsInv(c: Conn, reach: nat)
    requires Inv(c) && c.tasks != []
    ensures Inv(Step(c, RunTask(reach)))
  {
    var c2 := c.(tasks := c.tasks[1..]);
    if c.tasks[0].Request? {
      EnqueueKeepsInv(c2, c.tasks[0].data);
      ResumeKeepsInv(Enqueue(c2, c.tasks[0].data), reach);
    }
  }

  lemma StepKeepsInv(c: Conn, e: Event)
    requires Inv(c)
    ensures Inv(Step(c, e))
  {
    if Enabled(c, e) {
      match e
      case Spawn(_) =>
      case RunTask(reach) => RunTaskKeepsInv(c, reach);
      case Respond(data, reach) =>
        EnqueueKeepsInv(c, data);
        ResumeKeepsInv(Enqueue(c, data), reach);
      case Spurious(reach) => ResumeKeepsInv(c, reach);
      case Complete(res, reach) =>
        RetireKeepsInv(c, res);
        ResumeKeepsInv(Retire(c, res), reach);
    }
  }

  /** In every run at most one write is in flight, what it writes is a prefix of the pending bytes, no
      byte is lost, repeated or reordered, and a resume always finds `send_fn` started and suspended. */
  lemma {:induction false} WritesInOrder(es: seq<Event>)
    ensures Inv(Exec(es))
  {
    if es != [] {
      WritesInOrder(es[..|es| - 1]);
      StepKeepsInv(Exec(es[..|es| - 1]), es[|es| - 1]);
    }
  }

  // --- stranded output ---

  /** Output waits, and no completion will ever come to send it. */
  predicate Stranded(c: Conn) { c.pending != [] && c.flying == [] }

  ghost predicate Flowing(c: Conn) {
    && (c.flying == [] ==> c.backLeft == 0 && c.pending == [])
    && (c.sender == InWrite ==> c.pending != [])
  }

  ghost predicate Stuck(c: Conn) { c.flying == [] && c.backLeft > 0 }

  lemma StepFlows(c: Conn, e: Event)
    requires Inv(c) && Flowing(c)
    ensures if Short(c, e) then Stuck(Step(c, e)) else Flowing(Step(c, e))
  {
    StepKeepsInv(c, e);
  }

  lemma StepStaysStuck(c: Conn, e: Event)
    requires Inv(c) && Stuck(c)
    ensures Stuck(Step(c, e)) && Step(c, e).accepted == c.accepted
  {
  }

  lemma {:induction false} StuckIffShort(es: seq<Event>)
    ensures if HadShort(es) then Stuck(Exec(es)) else Flowing(Exec(es))
  {
    if es != [] {
      var front, e := es[..|es| - 1], es[|es| - 1];
      StuckIffShort(front);
      WritesInOrder(front);
      if HadShort(front) {
        StepStaysStuck(Exec(front), e);
      } else {
        StepFlows(Exec(front), e);
      }
    }
  }

  /** Output is stranded if and only if some completion was short. */
  lemma StrandedIffShort(es: seq<Event>)
    ensures HadShort(es) <==> Stranded(Exec(es))
  {
    StuckIffShort(es);
    WritesInOrder(es);
  }

  /** And then it stays: no continuation of the run gets another byte accepted. */
  lemma {:induction false} StrandedForever(es: seq<Event>, more: seq<Event>)
    requires HadShort(es)
    ensures HadShort(es + more) && Exec(es + more).accepted == Exec(es).accepted
  {
    if more == [] {
      assert es + more == es;
    } else {
      var front, e := more[..|more| - 1], more[|more| - 1];
      StrandedForever(es, front);
      assert (es + more)[..|es + more| - 1] == es + front;
      StuckIffShort(es + front);
      WritesInOrder(es + front);
      StepStaysStuck(Exec(es + front), e);
    }
  }

  /** A resume that nothing has caused changes nothing, in any run. */
  lemma SpuriousResumeIsHarmless(es: seq<Event>, reach: nat)
    ensures Step(Exec(es), Spurious(reach)) == Exec(es)
  {
    StuckIffShort(es);
    WritesInOrder(es);
  }

  /** It does happen: a kernel that takes one byte of two strands the other. */
  lemma ShortWriteStrands()
    ensures Stranded(Exec([RunTask(0), RunTask(0), Respond([1, 2], 2), Complete(1, 1)]))
  {
    var started := [RunTask(0), RunTask(0)];
    assert started[..1] == [RunTask(0)];
    assert Exec([RunTask(0)]) == Init().(tasks := [StartRecv], sender := InWait);
    assert Exec(started) == Init().(tasks := [], sender := InWait);
    var submitted := started + [Respond([1, 2], 2)];
    assert submitted[..2] == started && [] + [1, 2] == [1, 2] && [1, 2][..2] == [1, 2];
    assert Exec(submitted).flying == [[1, 2]];
    var completed := submitted + [Complete(1, 1)];
    assert completed[..3] == submitted;
    assert Short(Exec(submitted), Complete(1, 1)) && HadShort(completed);
    StrandedIffShort(completed);
    assert completed == [RunTask(0), RunTask(0), Respond([1, 2], 2), Complete(1, 1)];
  }

  // --- what goes in comes out ---

  /** The tasks that the executor was given, in order. */
  function Spawned(es: seq<Event>): seq<Task> {
    if es == [] then [StartSend, StartRecv] else
    var front, e := es[..|es| - 1], es[|es| - 1];
    if e.Spawn? then Spawned(front) + [Request(e.data)] else Spawned(front)
  }

  /** The tasks that it has run, in order. */
  function Ran(es: seq<Event>): seq<Task> {
    if es == [] then [] else
    var front, e := es[..|es| - 1], es[|es| - 1];
    if e.RunTask? && Exec(front).tasks != [] then Ran(front) + [Exec(front).tasks[0]] else Ran(front)
  }

  /** What one event gives to the connection to write. */
  function Gives(c: Conn, e: Event): seq<Byte> {
    if !Enabled(c, e) then []
    else if e.Respond? then e.data
    else if e.RunTask? && c.tasks[0].Request? then c.tasks[0].data
    else []
  }

  /** All that was given to the connection to write: responses and the requests that were run, in order. */
  function Given(es: seq<Event>): seq<Byte> {
    if es == [] then [] else Given(es[..|es| - 1]) + Gives(Exec(es[..|es| - 1]), es[|es| - 1])
  }

  /** How many bytes the kernel has reported as written. */
  function Reported(es: seq<Event>): nat {
    if es == [] then 0 else
    var front, e := es[..|es| - 1], es[|es| - 1];
    Reported(front) + if e.Complete? && Enabled(Exec(front), e) then e.res else 0
  }

  lemma StepRecords(c: Conn, e: Event)
    requires Inv(c)
    ensures var d := Step(c, e);
      && d.appended == c.appended + Gives(c, e)
      && |d.accepted| == |c.accepted| + (if e.Complete? && Enabled(c, e) then e.res else 0)
      && d.tasks == (if e.Spawn? then c.tasks + [Request(e.data)]
                     else if e.RunTask? && c.tasks != [] then c.tasks[1..] else c.tasks)
  {
    if e.Complete? && Enabled(c, e) { RetireKeepsInv(c, e.res); }
  }

  lemma {:induction false} RunRecords(es: seq<Event>)
    ensures Exec(es).appended == Given(es) && |Exec(es).accepted| == Reported(es)
  {
    if es != [] {
      var front, e := es[..|es| - 1], es[|es| - 1];
      RunRecords(front);
      WritesInOrder(front);
      StepRecords(Exec(front), e);
    }
  }

  /** Every task is run once, in order, or still queued. */
  lemma {:induction false} TasksInOrder(es: seq<Event>)
    ensures Ran(es) + Exec(es).tasks == Spawned(es)
  {
    if es != [] {
      var front, e := es[..|es| - 1], es[|es| - 1];
      TasksInOrder(front);
      WritesInOrder(front);
      StepRecords(Exec(front), e);
      var q := Exec(front).tasks;
      if e.Spawn? {
        assert Ran(front) + (q + [Request(e.data)]) == Ran(front) + q + [Request(e.data)];
      } else if e.RunTask? && q != [] {
        assert Ran(front) + [q[0]] + q[1..] == Ran(front) + q;
      }
    }
  }

  /** In every run the kernel has got exactly the first bytes of all that was given, as many as it has reported,
      and the rest is pending, in order. */
  lemma KernelGetsWhatWasGiven(es: seq<Event>)
    ensures var c := Exec(es);
      Reported(es) <= |Given(es)| && c.accepted == Given(es)[..Reported(es)] && c.pending == Given(es)[Reported(es)..]
  {
    WritesInOrder(es);
    RunRecords(es);
  }

  /** A write in flight that names all that was pending drains the buffer when it completes, and so does the next
      write for what was given behind it. */
  lemma TwoCompletionsDrain(c: Conn)
    requires Inv(c) && c.flying != [] && c.backLeft == |c.flying[0]|
    ensures var d := Step(c, Complete(|c.flying[0]|, |c.pending|));
      && (d.pending == [] ==> d.flying == [])
      && (d.pending != [] ==> d.flying == [d.pending] && Step(d, Complete(|d.pending|, 0)).pending == [])
  {
    var e := Complete(|c.flying[0]|, |c.pending|);
    StepKeepsInv(c, e);
    var d := Step(c, e);
    assert d.pending[..|d.pending|] == d.pending && c.flying[1..] == [];
    assert d.pending != [] ==> d.flying == [d.pending];
  }

  /** A write that an event submits names as many of the pending bytes as it can reach, and at least one. */
  lemma SubmitsWhatItReaches(c: Conn, e: Event)
    requires Inv(c) && c.flying == [] && !e.Spawn?
    ensures var d := Step(c, e);
      d.flying != [] ==> d.flying == [d.pending[..Reach(d, e.reach)]] && d.backLeft == |d.pending|
  {
  }
}
