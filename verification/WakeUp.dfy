/** How a spawn wakes the event loop of the epoll executor.

    `spawn` pushes its task, tests and clears `should_notify_`, and writes to the eventfd if it cleared
    the flag. The loop pops until the queue is empty, sets the flag, and blocks in `epoll_wait`. Any
    number of threads spawn; every atomic action is one step, and the task queue is a FIFO sequence. The
    eventfd is edge-triggered: a write makes it due, and a read takes back what was not reported yet. */
module WakeUp {
  type Tid = nat
  type TaskId = nat

  datatype LoopPoint =
    | Popping      // about to pop a task
    | Arming       // a pop failed; about to set the flag
    | Waiting      // in epoll_wait
    | Draining     // woken by the eventfd; about to read it
    | Clearing     // about to clear the flag

  /** A spawn between its push and its test, or between its successful test and its write. */
  datatype SpawnPoint = Testing(epoch: nat) | Writing

  datatype State = State(
    flag: bool,                         // should_notify_
    queue: seq<TaskId>,
    count: nat,                         // the eventfd's counter
    edge: bool,                         // the eventfd was written since epoll last reported it, and not read since
    loop: LoopPoint,
    spawns: map<Tid, SpawnPoint>,
    // history, never read by a step
    epoch: nat,                         // failed pops so far
    tested: bool,                       // a spawn has tested the flag since it was last set
    missed: bool,                       // since the last failed pop, a spawn pushed and found the flag not yet set
    arms: nat, wins: nat, writes: nat)  // settings of the flag, successful tests, eventfd writes

  datatype Action =
    | Push(t: Tid, task: TaskId)
    | Test(t: Tid)
    | Write(t: Tid)
    | Pop
    | Arm
    | Wake(byOther: bool)
    | Drain
    | Clear

  function Init(): State { State(false, [], 0, false, Popping, map[], 0, false, false, 0, 0, 0) }

  function Remove(m: map<Tid, SpawnPoint>, t: Tid): map<Tid, SpawnPoint> { m - {t} }

  /** An action that is not enabled changes nothing. */
  function Step(s: State, a: Action): State {
    match a
    case Push(t, task) =>
      if t in s.spawns then s else s.(queue := s.queue + [task], spawns := s.spawns[t := Testing(s.epoch)])
    case Test(t) =>
      if t !in s.spawns || !s.spawns[t].Testing? then s
      else if s.flag then s.(flag := false, spawns := s.spawns[t := Writing], tested := true, wins := s.wins + 1)
      else s.(spawns := Remove(s.spawns, t), tested := true,
              missed := s.missed || (s.loop.Arming? && s.spawns[t].epoch == s.epoch))
    case Write(t) =>
      if t !in s.spawns || !s.spawns[t].Writing? then s
      else s.(count := s.count + 1, edge := true, spawns := Remove(s.spawns, t), writes := s.writes + 1)
    case Pop =>
      if !s.loop.Popping? then s
      else if s.queue == [] then s.(loop := Arming, epoch := s.epoch + 1, missed := false)
      else s.(queue := s.queue[1..])
    case Arm => if s.loop.Arming? then s.(loop := Waiting, flag := true, tested := false, arms := s.arms + 1) else s
    case Wake(byOther) =>
      if !s.loop.Waiting? then s
      else if byOther then s.(loop := Popping)
      else if s.edge then s.(loop := Draining, edge := false)
      else s
    case Drain => if s.loop.Draining? then s.(loop := Clearing, count := 0, edge := false) else s
    case Clear => if s.loop.Clearing? then s.(loop := Popping, flag := false) else s
  }

  function Exec(acts: seq<Action>): State {
    if acts == [] then Init() else Step(Exec(acts[..|acts| - 1]), acts[|acts| - 1])
  }

  predicate HasWriter(s: State) { exists t :: t in s.spawns && s.spawns[t].Writing? }

  /** A spawn has pushed its task since the last failed pop and not tested the flag yet. */
  predicate HasTester(s: State) { exists t :: t in s.spawns && s.spawns[t] == Testing(s.epoch) }

  /** A wake-up is pending, or about to be written. */
  predicate WakeComing(s: State) { s.edge || HasWriter(s) }

  ghost function Writers(m: map<Tid, SpawnPoint>): set<Tid> { set t | t in m && m[t].Writing? }

  ghost predicate Inv(s: State) {
    && (forall t :: t in s.spawns && s.spawns[t].Testing? ==> s.spawns[t].epoch <= s.epoch)
    && (s.edge || s.loop.Draining? ==> s.count > 0)
    && s.writes + |Writers(s.spawns)| == s.wins
    && s.wins + (if s.flag then 1 else 0) <= s.arms
    && (s.loop.Waiting? && s.tested ==> !s.flag)
    && (s.loop.Waiting? && !s.flag ==> WakeComing(s))
    && (s.loop.Arming? || s.loop.Waiting? ==>
          && (s.queue != [] ==> s.missed || HasTester(s) || WakeComing(s))
          && (s.missed || HasTester(s) ==> s.queue != []))
  }

  lemma PushKeepsInv(s: State, t: Tid, task: TaskId)
    requires Inv(s)
    ensures Inv(Step(s, Push(t, task)))
  {
    if t !in s.spawns {
      var s2 := Step(s, Push(t, task));
      assert Writers(s2.spawns) == Writers(s.spawns);
      assert s2.spawns[t] == Testing(s2.epoch);
      assert HasWriter(s) ==> HasWriter(s2) by { StillWriting(s, s2, t); }
    }
  }

  /** A step of one spawn leaves the others where they are. */
  lemma StillWriting(s: State, s2: State, t: Tid)
    requires t in s.spawns ==> !s.spawns[t].Writing?
    requires forall u :: u != t && u in s.spawns ==> u in s2.spawns && s2.spawns[u] == s.spawns[u]
    ensures HasWriter(s) ==> HasWriter(s2)
  {
    if HasWriter(s) {
      var u :| u in s.spawns && s.spawns[u].Writing?;
      assert u in s2.spawns && s2.spawns[u].Writing?;
    }
  }

  /** The test finds the flag set: the spawn will write. */
  lemma WinKeepsInv(s: State, t: Tid)
    requires Inv(s) && t in s.spawns && s.spawns[t].Testing? && s.flag
    ensures Inv(Step(s, Test(t)))
  {
    var s2 := Step(s, Test(t));
    assert Writers(s2.spawns) == Writers(s.spawns) + {t};
    assert s2.spawns[t].Writing?;
    assert HasWriter(s2);
  }

  /** The test finds the flag clear: the spawn is over. */
  lemma LoseKeepsInv(s: State, t: Tid)
    requires Inv(s) && t in s.spawns && s.spawns[t].Testing? && !s.flag
    ensures Inv(Step(s, Test(t)))
  {
    var s2 := Step(s, Test(t));
    StillWriting(s, s2, t);
    assert Writers(s2.spawns) == Writers(s.spawns);
    if HasTester(s) && s.spawns[t] != Testing(s.epoch) {
      var u :| u in s.spawns && s.spawns[u] == Testing(s.epoch);
      assert u in s2.spawns && s2.spawns[u] == Testing(s2.epoch);
    }
  }

  lemma WriteKeepsInv(s: State, t: Tid)
    requires Inv(s) && t in s.spawns && s.spawns[t].Writing?
    ensures Inv(Step(s, Write(t)))
  {
    var s2 := Step(s, Write(t));
    assert Writers(s2.spawns) == Writers(s.spawns) - {t};
    assert t in Writers(s.spawns);
    if HasTester(s) {
      var u :| u in s.spawns && s.spawns[u] == Testing(s.epoch);
      assert u in s2.spawns && s2.spawns[u] == Testing(s2.epoch);
    }
  }

  /** A failing pop begins a new epoch: no spawn has pushed in it yet. */
  lemma PopKeepsInv(s: State)
    requires Inv(s)
    ensures Inv(Step(s, Pop))
  {
    var s2 := Step(s, Pop);
    if s.loop.Popping? && s.queue == [] {
      assert !HasTester(s2);
    }
  }

  lemma LoopKeepsInv(s: State, a: Action)
    requires Inv(s) && (a.Arm? || a.Wake? || a.Drain? || a.Clear?)
    ensures Inv(Step(s, a))
  {
    var s2 := Step(s, a);
    assert s2.spawns == s.spawns && s2.epoch == s.epoch;
    assert (HasWriter(s) <==> HasWriter(s2)) && (HasTester(s) <==> HasTester(s2));
  }

  lemma StepKeepsInv(s: State, a: Action)
    requires Inv(s)
    ensures Inv(Step(s, a))
  {
    match a
    case Push(t, task) => PushKeepsInv(s, t, task);
    case Test(t) =>
      if t in s.spawns && s.spawns[t].Testing? {
        if s.flag { WinKeepsInv(s, t); } else { LoseKeepsInv(s, t); }
      }
    case Write(t) => if t in s.spawns && s.spawns[t].Writing? { WriteKeepsInv(s, t); }
    case Pop => PopKeepsInv(s);
    case _ => LoopKeepsInv(s, a);
  }

  lemma {:induction false} InvHolds(acts: seq<Action>)
    ensures Inv(Exec(acts))
  {
    if acts == [] {
      assert Writers(Init().spawns) == {};
    } else {
      InvHolds(acts[..|acts| - 1]);
      StepKeepsInv(Exec(acts[..|acts| - 1]), acts[|acts| - 1]);
    }
  }

  /** While the loop is blocked, if any spawn has tested the flag since the loop last set it, a wake-up is
      pending or about to be written; and the eventfd is written at most once per setting of the flag. */
  lemma TestedSpawnsWakeTheLoop(acts: seq<Action>)
    ensures var s := Exec(acts);
      (s.loop.Waiting? && s.tested ==> WakeComing(s)) && s.writes <= s.arms
  {
    InvHolds(acts);
  }

  /** The read of the eventfd never blocks the loop: there is always something to read. */
  lemma DrainNeverBlocks(acts: seq<Action>)
    requires Exec(acts).loop.Draining?
    ensures Exec(acts).count > 0
  {
    InvHolds(acts);
  }

  /** The loop is blocked, no wake-up is pending, and no spawn is under way. */
  predicate Asleep(s: State) { s.loop.Waiting? && !s.edge && s.spawns == map[] }

  /** A blocked loop that nothing will wake leaves a task in its queue if and only if a spawn pushed its
      task after the failed pop and tested the flag before the loop set it. */
  lemma TaskStrandedIffMissed(acts: seq<Action>)
    requires Asleep(Exec(acts))
    ensures Exec(acts).queue != [] <==> Exec(acts).missed
  {
    InvHolds(acts);
  }

  /** It does happen: the whole spawn falls between the failed pop and the setting of the flag. */
  lemma LostWakeUp(task: TaskId)
    ensures var s := Exec([Pop, Push(0, task), Test(0), Arm]); Asleep(s) && s.queue == [task]
  {
    var acts := [Pop, Push(0, task), Test(0), Arm];
    assert acts[..3] == [Pop, Push(0, task), Test(0)] && acts[..3][..2] == [Pop, Push(0, task)];
    assert [Pop, Push(0, task)][..1] == [Pop];
    assert Exec([Pop]) == Init().(loop := Arming, epoch := 1);
    assert Exec(acts[..3][..2]) == Exec([Pop]).(queue := [task], spawns := map[0 := Testing(1)]);
    assert Exec(acts[..3]) == Exec([Pop]).(queue := [task], spawns := map[], tested := true, missed := true);
  }

  // --- no task is lost ---

  /** The tasks that spawns have pushed, in order. */
  function Pushed(acts: seq<Action>): seq<TaskId> {
    if acts == [] then [] else
    var front, a := acts[..|acts| - 1], acts[|acts| - 1];
    if a.Push? && a.t !in Exec(front).spawns then Pushed(front) + [a.task] else Pushed(front)
  }

  /** The tasks that the loop has taken to run, in order. */
  function Ran(acts: seq<Action>): seq<TaskId> {
    if acts == [] then [] else
    var front, a := acts[..|acts| - 1], acts[|acts| - 1];
    if a.Pop? && Exec(front).loop.Popping? && Exec(front).queue != [] then Ran(front) + [Exec(front).queue[0]]
    else Ran(front)
  }

  /** Every task pushed is run once, in the order of the pushes, or still queued. */
  lemma {:induction false} NoTaskIsLost(acts: seq<Action>)
    ensures Ran(acts) + Exec(acts).queue == Pushed(acts)
  {
    if acts != [] {
      var front, a := acts[..|acts| - 1], acts[|acts| - 1];
      NoTaskIsLost(front);
      var q := Exec(front).queue;
      match a
      case Push(t, task) => assert Ran(front) + (q + [task]) == Ran(front) + q + [task];
      case Pop => if q != [] { assert Ran(front) + [q[0]] + q[1..] == Ran(front) + q; }
      case _ =>
    }
  }

  lemma Snoc(acts: seq<Action>, a: Action)
    ensures Exec(acts + [a]) == Step(Exec(acts), a)
    ensures var s := Exec(acts);
      Ran(acts + [a]) == if a.Pop? && s.loop.Popping? && s.queue != [] then Ran(acts) + [s.queue[0]] else Ran(acts)
  {
    assert (acts + [a])[..|acts + [a]| - 1] == acts;
  }

  /** A wake-up that is pending leads a blocked loop to its first task. */
  lemma PendingWakeUpRunsTask(acts: seq<Action>)
    requires Exec(acts).loop.Waiting? && Exec(acts).edge && Exec(acts).queue != []
    ensures Ran(acts + [Wake(false)] + [Drain] + [Clear] + [Pop]) == Ran(acts) + [Exec(acts).queue[0]]
  {
    Snoc(acts, Wake(false));
    Snoc(acts + [Wake(false)], Drain);
    Snoc(acts + [Wake(false)] + [Drain], Clear);
    Snoc(acts + [Wake(false)] + [Drain] + [Clear], Pop);
  }

  /** So does an event on any other file. */
  lemma OtherEventRunsTask(acts: seq<Action>)
    requires Exec(acts).loop.Waiting? && Exec(acts).queue != []
    ensures Ran(acts + [Wake(true)] + [Pop]) == Ran(acts) + [Exec(acts).queue[0]]
  {
    Snoc(acts, Wake(true));
    Snoc(acts + [Wake(true)], Pop);
  }

  predicate NoWrite(acts: seq<Action>) { forall i :: 0 <= i < |acts| ==> !acts[i].Write? }

  /** The read of the eventfd takes back all writes up to it: without a later write it is not reported again. */
  lemma {:induction false} QuietAfterDrain(acts: seq<Action>, more: seq<Action>)
    requires Exec(acts).loop.Draining? && NoWrite(more)
    ensures !Exec(acts + [Drain] + more).edge && Exec(acts + [Drain] + more).count == 0
  {
    var base := acts + [Drain];
    if more == [] {
      Snoc(acts, Drain);
      assert base + more == base;
    } else {
      var front, a := more[..|more| - 1], more[|more| - 1];
      QuietAfterDrain(acts, front);
      Snoc(base + front, a);
      StaysQuiet(Exec(base + front), a);
      assert base + more == base + front + [a];
    }
  }

  lemma StaysQuiet(s: State, a: Action)
    requires !s.edge && s.count == 0 && !a.Write?
    ensures !Step(s, a).edge && Step(s, a).count == 0
  {
  }

  predicate NoArm(acts: seq<Action>) { forall i :: 0 <= i < |acts| ==> !acts[i].Arm? }

  lemma StaysClear(s: State, a: Action)
    requires !s.flag && !a.Arm?
    ensures !Step(s, a).flag && Step(s, a).wins == s.wins
  {
  }

  /** The loop clears the flag when the eventfd has woken it: until it sets the flag again no spawn writes. */
  lemma {:induction false} ClearedUntilArmed(acts: seq<Action>, more: seq<Action>)
    requires Exec(acts).loop.Clearing? && NoArm(more)
    ensures var s := Exec(acts + [Clear] + more); !s.flag && s.wins == Exec(acts + [Clear]).wins
  {
    var base := acts + [Clear];
    if more == [] {
      Snoc(acts, Clear);
      assert base + more == base;
    } else {
      var front, a := more[..|more| - 1], more[|more| - 1];
      ClearedUntilArmed(acts, front);
      Snoc(base + front, a);
      StaysClear(Exec(base + front), a);
      assert base + more == base + front + [a];
    }
  }
}
