/** The specification: an atomic first-in first-out queue. Each call takes effect in one internal
    action between its call and its return, and returns what that action decided. */
module AtomicQueue {
  import opened Options
  import opened MpmcQueue

  datatype Pending =
    | Resting
    | WillPush(v: Value)
    | HasPushed
    | WillPop
    | HasPopped(result: Option<Value>)

  datatype Spec = Spec(queue: seq<Value>, calls: map<Tid, Pending>)

  datatype SpecAction = Call(e: Event) | TakeEffect(t: Tid) | Return(t: Tid)

  function At(x: Spec, t: Tid): Pending { if t in x.calls then x.calls[t] else Resting }

  function SpecStep(x: Spec, a: SpecAction): Spec {
    match a
    case Call(CallPush(t, v)) => if At(x, t).Resting? then x.(calls := x.calls[t := WillPush(v)]) else x
    case Call(CallPop(t)) => if At(x, t).Resting? then x.(calls := x.calls[t := WillPop]) else x
    case Call(_) => x
    case TakeEffect(t) =>
      (match At(x, t)
       case WillPush(v) => Spec(x.queue + [v], x.calls[t := HasPushed])
       case WillPop =>
         if x.queue == [] then x.(calls := x.calls[t := HasPopped(None)])
         else Spec(x.queue[1..], x.calls[t := HasPopped(Some(x.queue[0]))])
       case _ => x)
    case Return(t) => if At(x, t).HasPushed? || At(x, t).HasPopped? then x.(calls := x.calls[t := Resting]) else x
  }

  function SpecEmit(x: Spec, a: SpecAction): seq<Event> {
    match a
    case Call(CallPush(t, v)) => if At(x, t).Resting? then [CallPush(t, v)] else []
    case Call(CallPop(t)) => if At(x, t).Resting? then [CallPop(t)] else []
    case Call(_) => []
    case TakeEffect(_) => []
    case Return(t) =>
      (match At(x, t)
       case HasPushed => [ReturnPush(t)]
       case HasPopped(r) => [ReturnPop(t, r)]
       case _ => [])
  }

  function SpecExec(acts: seq<SpecAction>): Spec {
    if acts == [] then Spec([], map[]) else SpecStep(SpecExec(acts[..|acts| - 1]), acts[|acts| - 1])
  }

  function SpecTrace(acts: seq<SpecAction>): seq<Event> {
    if acts == [] then []
    else SpecTrace(acts[..|acts| - 1]) + SpecEmit(SpecExec(acts[..|acts| - 1]), acts[|acts| - 1])
  }
}

/** The atomic queue is first-in first-out. */
module AtomicQueueFifo {
  import opened MpmcQueue
  import opened AtomicQueue

  /** The values pushed so far, in the order in which the pushes took effect. */
  function Pushed(acts: seq<SpecAction>): seq<Value> {
    if acts == [] then [] else
    var front, a := acts[..|acts| - 1], acts[|acts| - 1];
    match a
    case TakeEffect(t) => (match At(SpecExec(front), t) case WillPush(v) => Pushed(front) + [v] case _ => Pushed(front))
    case _ => Pushed(front)
  }

  /** The values popped so far, in the order in which the pops took effect. */
  function Popped(acts: seq<SpecAction>): seq<Value> {
    if acts == [] then [] else
    var front, a := acts[..|acts| - 1], acts[|acts| - 1];
    match a
    case TakeEffect(t) =>
      if At(SpecExec(front), t).WillPop? && SpecExec(front).queue != [] then Popped(front) + [SpecExec(front).queue[0]]
      else Popped(front)
    case _ => Popped(front)
  }

  /** What was popped, followed by what is still queued, is what was pushed. */
  lemma {:induction false} FirstInFirstOut(acts: seq<SpecAction>)
    ensures Popped(acts) + SpecExec(acts).queue == Pushed(acts)
  {
    if acts != [] {
      var front, a := acts[..|acts| - 1], acts[|acts| - 1];
      FirstInFirstOut(front);
      var q := SpecExec(front).queue;
      if a.TakeEffect? && At(SpecExec(front), a.t).WillPush? {
        var v := At(SpecExec(front), a.t).v;
        assert Popped(front) + (q + [v]) == Popped(front) + q + [v];
      } else if a.TakeEffect? && At(SpecExec(front), a.t).WillPop? && q != [] {
        assert Popped(front) + [q[0]] + q[1..] == Popped(front) + q;
      } else {
        assert SpecExec(acts).queue == q && Popped(acts) == Popped(front) && Pushed(acts) == Pushed(front);
      }
    }
  }
}

/** Every run of the lock-free queue shows its callers a trace of the atomic queue. */
module MpmcLinearizable {
  import opened Options
  import opened MpmcQueue
  import opened MpmcInvariant
  import opened AtomicQueue

  /** What the specification knows of a thread. A push takes effect at its successful exchange of
      tail_index_, a pop at its successful exchange of head_index_ or where it finds the queue empty. */
  ghost function ViewLocal(log: seq<Value>, l: Local): Pending {
    match l
    case Idle => Resting
    case Fault => Resting
    case Pushing(p) =>
      if p.PushReturn? then HasPushed
      else if p.PushLoadChunk? || p.PushLoadIndex? || p.PushClaim? then WillPush(p.v)
      else HasPushed
    case Seeking(_) => WillPop
    case Taking(p) =>
      if p.PopReturn? then HasPopped(p.result)
      else if p.idx < |log| then HasPopped(Some(log[p.idx]))
      else HasPopped(None)
  }

  ghost function View(s: State): Spec
    requires s.mem.headIndex <= |s.mem.hist.log|
  {
    Spec(s.mem.hist.log[s.mem.headIndex..], map t | t in s.threads :: ViewLocal(s.mem.hist.log, s.threads[t]))
  }

  /** The specification's action, if any, that a step of the queue performs. */
  function SpecOf(s: State, a: Action): seq<SpecAction> {
    match a
    case InvokePush(t, v) => [Call(CallPush(t, v))]
    case InvokePop(t) => [Call(CallPop(t))]
    case Run(t, fail) =>
      if t !in s.threads then []
      else match s.threads[t]
        case Pushing(PushClaim(_, _, i)) => if s.mem.tailIndex == i && !fail then [TakeEffect(t)] else []
        case Pushing(PushReturn) => [Return(t)]
        case Seeking(PopLoadTail(_, i)) => if i == s.mem.tailIndex then [TakeEffect(t)] else []
        case Seeking(PopClaim(_, i)) => if s.mem.headIndex == i && !fail then [TakeEffect(t)] else []
        case Taking(PopReturn(_)) => [Return(t)]
        case _ => []
  }

  ghost predicate Simulates(x: Spec, acts: seq<SpecAction>, x2: Spec, events: seq<Event>) {
    if acts == [] then x2 == x && events == []
    else |acts| == 1 && x2 == SpecStep(x, acts[0]) && events == SpecEmit(x, acts[0])
  }

  /** A push or pop's view does not change when other threads extend the log. */
  lemma ViewIsStable(m: Memory, m2: Memory, t: Tid, l: Local)
    requires Knows(m, t, l) && m.hist.log <= m2.hist.log
    ensures ViewLocal(m2.hist.log, l) == ViewLocal(m.hist.log, l)
  {
  }

  ghost predicate SameEffect(m: Memory, t: Tid, l: Local, fail: bool) {
    var (m2, l2) := Act(m, t, l, fail);
    && m2.hist.log == m.hist.log && m2.headIndex == m.headIndex
    && ViewLocal(m.hist.log, l2) == ViewLocal(m.hist.log, l)
  }

  lemma PushIsSilent(m: Memory, t: Tid, p: PushPoint, fail: bool)
    requires Good(m) && PushKnows(m, t, p) && !p.PushReturn? && !(p.PushClaim? && m.tailIndex == p.idx && !fail)
    ensures SameEffect(m, t, Pushing(p), fail)
  {
    PushIsSafe(m, t, p);
  }

  lemma SeekIsSilent(m: Memory, t: Tid, p: SeekPoint, fail: bool)
    requires Good(m) && SeekKnows(m, p)
    requires !(p.PopLoadTail? && m.tailIndex == p.idx) && !(p.PopClaim? && m.headIndex == p.idx && !fail)
    ensures SameEffect(m, t, Seeking(p), fail)
  {
    SeekStepFits(m, t, p, fail);
  }

  lemma TakeIsSilent(m: Memory, t: Tid, p: TakePoint, fail: bool)
    requires Good(m) && TakeKnows(m, t, p) && !p.PopReturn?
    ensures SameEffect(m, t, Taking(p), fail)
  {
    TakeStepFits(m, t, p);
  }

  lemma RunIsSilent(s: State, t: Tid, fail: bool)
    requires Inv(s) && t in s.threads && SpecOf(s, Run(t, fail)) == []
    ensures SameEffect(s.mem, t, s.threads[t], fail)
  {
    match s.threads[t]
    case Pushing(p) => PushIsSilent(s.mem, t, p, fail);
    case Seeking(p) => SeekIsSilent(s.mem, t, p, fail);
    case Taking(p) => TakeIsSilent(s.mem, t, p, fail);
    case _ =>
  }

  /** The view after a step, when only thread `t` and the ends of the log changed. */
  lemma ViewAfter(s: State, s2: State, t: Tid, l2: Local)
    requires Inv(s) && Inv(s2) && s2.threads == s.threads[t := l2] && s.mem.hist.log <= s2.mem.hist.log
    ensures View(s2) == Spec(s2.mem.hist.log[s2.mem.headIndex..], View(s).calls[t := ViewLocal(s2.mem.hist.log, l2)])
  {
    forall u | u in s.threads && u != t
      ensures ViewLocal(s2.mem.hist.log, s.threads[u]) == ViewLocal(s.mem.hist.log, s.threads[u])
    {
      ViewIsStable(s.mem, s2.mem, u, s.threads[u]);
    }
  }

  lemma InvokeSimulates(s: State, a: Action)
    requires Inv(s) && Inv(Step(s, a)) && !a.Run?
    ensures Simulates(View(s), SpecOf(s, a), View(Step(s, a)), Emit(s, a))
  {
    var t := a.t;
    if IsIdle(s, t) {
      ViewAfter(s, Step(s, a), t, Step(s, a).threads[t]);
      assert At(View(s), t).Resting?;
    } else {
      assert At(View(s), t) == ViewLocal(s.mem.hist.log, s.threads[t]);
    }
  }

  lemma EffectSimulates(s: State, t: Tid, fail: bool)
    requires Inv(s) && Inv(Step(s, Run(t, fail))) && t in s.threads && SpecOf(s, Run(t, fail)) == [TakeEffect(t)]
    ensures View(Step(s, Run(t, fail))) == SpecStep(View(s), TakeEffect(t))
  {
    var s2 := Step(s, Run(t, fail));
    ViewAfter(s, s2, t, s2.threads[t]);
    assert At(View(s), t) == ViewLocal(s.mem.hist.log, s.threads[t]);
  }

  lemma ReturnSimulates(s: State, t: Tid, fail: bool)
    requires Inv(s) && Inv(Step(s, Run(t, fail))) && t in s.threads && SpecOf(s, Run(t, fail)) == [Return(t)]
    ensures View(Step(s, Run(t, fail))) == SpecStep(View(s), Return(t))
    ensures Emit(s, Run(t, fail)) == SpecEmit(View(s), Return(t))
  {
    var s2 := Step(s, Run(t, fail));
    ViewAfter(s, s2, t, s2.threads[t]);
    assert At(View(s), t) == ViewLocal(s.mem.hist.log, s.threads[t]);
  }

  lemma SilentSimulates(s: State, t: Tid, fail: bool)
    requires Inv(s) && Inv(Step(s, Run(t, fail))) && t in s.threads && SpecOf(s, Run(t, fail)) == []
    ensures View(Step(s, Run(t, fail))) == View(s)
  {
    var s2 := Step(s, Run(t, fail));
    RunIsSilent(s, t, fail);
    ViewAfter(s, s2, t, s2.threads[t]);
    assert View(s).calls[t := ViewLocal(s.mem.hist.log, s.threads[t])] == View(s).calls;
  }

  /** Every step is one action of the specification, or none, and shows the same events. */
  lemma StepSimulates(s: State, a: Action)
    requires Inv(s)
    ensures Inv(Step(s, a)) && Simulates(View(s), SpecOf(s, a), View(Step(s, a)), Emit(s, a))
  {
    StepKeepsInv(s, a);
    if !a.Run? {
      InvokeSimulates(s, a);
    } else if a.t in s.threads {
      var acts := SpecOf(s, a);
      if acts == [] {
        SilentSimulates(s, a.t, a.fail);
      } else if acts == [Return(a.t)] {
        ReturnSimulates(s, a.t, a.fail);
      } else {
        EffectSimulates(s, a.t, a.fail);
      }
    }
  }

  /** The run of the specification that a schedule of the queue performs. */
  function SpecRun(acts: seq<Action>): seq<SpecAction> {
    if acts == [] then []
    else SpecRun(acts[..|acts| - 1]) + SpecOf(Exec(acts[..|acts| - 1]), acts[|acts| - 1])
  }

  /** Linearizability: any schedule of any number of pushes and pops shows its callers exactly the
      trace of a run of the atomic queue, whose contents are those of the lock-free one. */
  lemma {:induction false} QueueIsLinearizable(acts: seq<Action>)
    ensures Inv(Exec(acts))
    ensures SpecTrace(SpecRun(acts)) == Trace(acts)
    ensures SpecExec(SpecRun(acts)) == View(Exec(acts))
  {
    InvHolds(acts);
    if acts != [] {
      var front, a := acts[..|acts| - 1], acts[|acts| - 1];
      QueueIsLinearizable(front);
      StepSimulates(Exec(front), a);
      var before, next := SpecRun(front), SpecOf(Exec(front), a);
      if next == [] {
        assert SpecRun(acts) == before;
      } else {
        assert (before + next)[..|before + next| - 1] == before;
      }
    }
  }

  /** A pop returns false only if the queue was empty at the instant it read tail_index_. */
  lemma EmptyPopSawEmptyQueue(acts: seq<Action>, t: Tid, h: Ref, i: nat, fail: bool)
    requires t in Exec(acts).threads && Exec(acts).threads[t] == Seeking(PopLoadTail(h, i))
    requires Step(Exec(acts), Run(t, fail)).threads[t] == Taking(PopReturn(None))
    ensures Exec(acts).mem.headIndex == Exec(acts).mem.tailIndex == i && SpecExec(SpecRun(acts)).queue == []
  {
    QueueIsLinearizable(acts);
  }

  /** A pop that returns a value returns the one whose push claimed the index that the pop claimed. */
  lemma PopReturnsTheClaimedValue(acts: seq<Action>, t: Tid)
    requires t in Exec(acts).threads
    ensures var s := Exec(acts);
      match s.threads[t]
      case Taking(PopCount(_, _, i, x)) =>
        && i < |s.mem.hist.log| && i < |s.mem.hist.poppedBy|
        && x == Some(s.mem.hist.log[i]) && s.mem.hist.poppedBy[i] == t
      case Taking(PopRelease(_, i, x)) => i < |s.mem.hist.log| && x == Some(s.mem.hist.log[i])
      case Pushing(PushWrite(v, _, i)) =>
        && i < |s.mem.hist.log| && i < |s.mem.hist.pushedBy|
        && v == s.mem.hist.log[i] && s.mem.hist.pushedBy[i] == t
      case _ => true
  {
    InvHolds(acts);
    assert Knows(Exec(acts).mem, t, Exec(acts).threads[t]);
  }
}
