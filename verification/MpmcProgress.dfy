/** What a call has done when it returns, and that a call which runs alone does return. */
module MpmcProgress {
  import opened Options
  import opened MpmcQueue
  import opened MpmcInvariant
  import opened MpmcTheorems

  // --- what a call has done when it returns ---

  /** Thread `t` stands at `l`; the indices it has claimed for writing and not made ready are its own. */
  ghost predicate PushesOpen(h: History, t: Tid, l: Local) {
    forall i :: 0 <= i < |h.pushedBy| && h.pushedBy[i] == t && i !in h.ready ==> PushIndex(l) == Some(i)
  }

  /** Thread `t` stands at `l`; the indices it has claimed for reading and not counted are its own. */
  ghost predicate PopsOpen(h: History, t: Tid, l: Local) {
    forall i :: 0 <= i < |h.poppedBy| && h.poppedBy[i] == t && i !in h.done ==> PopIndex(l) == Some(i)
  }

  function At(s: State, t: Tid): Local { if t in s.threads then s.threads[t] else Idle }

  /** Every claim that is not finished belongs to a call that is under way. */
  ghost predicate ClaimsOpen(s: State) {
    forall t :: PushesOpen(s.mem.hist, t, At(s, t)) && PopsOpen(s.mem.hist, t, At(s, t))
  }

  lemma PushActs(m: Memory, t: Tid, p: PushPoint, fail: bool)
    requires Good(m) && PushKnows(m, t, p)
    requires PushesOpen(m.hist, t, Pushing(p)) && PopsOpen(m.hist, t, Pushing(p))
    ensures var (m2, l2) := Act(m, t, Pushing(p), fail); PushesOpen(m2.hist, t, l2) && PopsOpen(m2.hist, t, l2)
  {
    PushIsSafe(m, t, p);
  }

  lemma SeekActs(m: Memory, t: Tid, p: SeekPoint, fail: bool)
    requires Good(m) && SeekKnows(m, p)
    requires PushesOpen(m.hist, t, Seeking(p)) && PopsOpen(m.hist, t, Seeking(p))
    ensures var (m2, l2) := Act(m, t, Seeking(p), fail); PushesOpen(m2.hist, t, l2) && PopsOpen(m2.hist, t, l2)
  {
    SeekIsSafe(m, p);
  }

  lemma TakeActs(m: Memory, t: Tid, p: TakePoint, fail: bool)
    requires Good(m) && TakeKnows(m, t, p)
    requires PushesOpen(m.hist, t, Taking(p)) && PopsOpen(m.hist, t, Taking(p))
    ensures var (m2, l2) := Act(m, t, Taking(p), fail); PushesOpen(m2.hist, t, l2) && PopsOpen(m2.hist, t, l2)
  {
    TakeIsSafe(m, t, p);
  }

  /** Who claims an index in a step is the thread that takes it. */
  lemma OnlyOwnClaims(m: Memory, t: Tid, l: Local, fail: bool)
    requires Good(m) && Knows(m, t, l)
    ensures var h, h2 := m.hist, Act(m, t, l, fail).0.hist;
      && (h2.pushedBy == h.pushedBy || h2.pushedBy == h.pushedBy + [t])
      && (h2.poppedBy == h.poppedBy || h2.poppedBy == h.poppedBy + [t])
      && h.ready <= h2.ready && h.done <= h2.done
  {
    match l
    case Pushing(p) => PushIsSafe(m, t, p);
    case Seeking(p) => SeekIsSafe(m, p);
    case Taking(p) => TakeIsSafe(m, t, p);
    case _ =>
  }

  lemma OthersStayOpen(h: History, h2: History, t: Tid, u: Tid, l: Local)
    requires t != u && PushesOpen(h, u, l) && PopsOpen(h, u, l)
    requires h2.pushedBy == h.pushedBy || h2.pushedBy == h.pushedBy + [t]
    requires h2.poppedBy == h.poppedBy || h2.poppedBy == h.poppedBy + [t]
    requires h.ready <= h2.ready && h.done <= h2.done
    ensures PushesOpen(h2, u, l) && PopsOpen(h2, u, l)
  {
  }

  lemma RunKeepsClaims(s: State, t: Tid, fail: bool)
    requires Inv(s) && ClaimsOpen(s) && t in s.threads
    ensures ClaimsOpen(Step(s, Run(t, fail)))
  {
    var s2, l := Step(s, Run(t, fail)), s.threads[t];
    assert Knows(s.mem, t, l) && PushesOpen(s.mem.hist, t, At(s, t)) && PopsOpen(s.mem.hist, t, At(s, t));
    OnlyOwnClaims(s.mem, t, l, fail);
    forall u
      ensures PushesOpen(s2.mem.hist, u, At(s2, u)) && PopsOpen(s2.mem.hist, u, At(s2, u))
    {
      if u == t {
        match l
        case Pushing(p) => PushActs(s.mem, t, p, fail);
        case Seeking(p) => SeekActs(s.mem, t, p, fail);
        case Taking(p) => TakeActs(s.mem, t, p, fail);
        case _ =>
      } else {
        assert PushesOpen(s.mem.hist, u, At(s, u));
        OthersStayOpen(s.mem.hist, s2.mem.hist, t, u, At(s, u));
      }
    }
  }

  lemma StepKeepsClaims(s: State, a: Action)
    requires Inv(s) && ClaimsOpen(s)
    ensures ClaimsOpen(Step(s, a))
  {
    if a.Run? {
      if a.t in s.threads { RunKeepsClaims(s, a.t, a.fail); }
    } else {
      var s2 := Step(s, a);
      forall u
        ensures PushesOpen(s2.mem.hist, u, At(s2, u)) && PopsOpen(s2.mem.hist, u, At(s2, u))
      {
        assert PushesOpen(s.mem.hist, u, At(s, u));
      }
    }
  }

  lemma {:induction false} ClaimsStayOpen(acts: seq<Action>)
    ensures ClaimsOpen(Exec(acts))
  {
    if acts != [] {
      ClaimsStayOpen(acts[..|acts| - 1]);
      InvHolds(acts[..|acts| - 1]);
      StepKeepsClaims(Exec(acts[..|acts| - 1]), acts[|acts| - 1]);
    }
  }

  predicate SlotReady(m: Memory, i: nat) {
    InChunk(m, i / CHUNK_SIZE, i) && SlotAt(m, i / CHUNK_SIZE, i).ready
  }

  lemma ReadyInHistory(m: Memory, i: nat)
    requires Good(m)
    ensures SlotReady(m, i) <==> i in m.hist.ready
  {
    var c, k := i / CHUNK_SIZE, i % CHUNK_SIZE;
    assert i == c * CHUNK_SIZE + k;
    if c < |m.heap| {
      assert m.heap[c].slots[k].ready <==> i in m.hist.ready;
    }
  }

  /** In every run, the slot of every index ever claimed by a producer is ready, or the producer that claimed it
      is still in `push` with this index: a push that has returned has made its value available. */
  lemma ReadyOrBeingPushed(acts: seq<Action>, i: nat)
    requires i < Exec(acts).mem.tailIndex
    ensures var s := Exec(acts);
      && i < |s.mem.hist.pushedBy|
      && (SlotReady(s.mem, i) || PushIndex(At(s, s.mem.hist.pushedBy[i])) == Some(i))
  {
    InvHolds(acts);
    ClaimsStayOpen(acts);
    var s := Exec(acts);
    ReadyInHistory(s.mem, i);
    assert PushesOpen(s.mem.hist, s.mem.hist.pushedBy[i], At(s, s.mem.hist.pushedBy[i]));
  }

  /** In every run, every index ever claimed by a consumer is counted in its chunk's read_count, or the consumer
      that claimed it has not counted it yet. */
  lemma CountedOrBeingPopped(acts: seq<Action>, i: nat)
    requires i < Exec(acts).mem.headIndex
    ensures var s := Exec(acts);
      && i < |s.mem.hist.poppedBy|
      && (i in s.mem.hist.done || PopIndex(At(s, s.mem.hist.poppedBy[i])) == Some(i))
  {
    InvHolds(acts);
    ClaimsStayOpen(acts);
    var s := Exec(acts);
    assert PopsOpen(s.mem.hist, s.mem.hist.poppedBy[i], At(s, s.mem.hist.poppedBy[i]));
  }

  // --- a consumer that runs alone ---

  /** The state after `n` steps of thread `t` in which no weak exchange fails. */
  function Alone(s: State, t: Tid, n: nat): State
    decreases n
  {
    if n == 0 then s else Alone(Step(s, Run(t, false)), t, n - 1)
  }

  ghost predicate Pops(s: State, t: Tid, n: nat, v: Value) {
    At(Alone(s, t, n), t) == Taking(PopReturn(Some(v)))
  }

  lemma OneStepMore(s: State, t: Tid, n: nat, v: Value)
    requires Pops(Step(s, Run(t, false)), t, n, v)
    ensures Pops(s, t, n + 1, v)
  {
  }

  /** The chunks from `r` up to that of index `i` are linked. */
  ghost predicate Path(m: Memory, r: Ref, i: nat) {
    forall c {:trigger Linked(m, c)} :: r <= c && (c + 1) * CHUNK_SIZE <= i ==> Linked(m, c)
  }

  function TakeRank(p: TakePoint): nat {
    match p
    case PopWalk(_, r, i) => 7 + 2 * (if r * CHUNK_SIZE <= i then i - r * CHUNK_SIZE else 0)
    case PopAdvance(_, r, i) => 6 + 2 * (if r * CHUNK_SIZE <= i then i - r * CHUNK_SIZE else 0)
    case PopLeave(_, _, _) => 5
    case PopWait(_, _, _) => 4
    case PopTake(_, _, _) => 3
    case PopCount(_, _, _, _) => 2
    case PopRelease(_, _, _) => 1
    case PopReturn(_) => 0
  }

  /** The consumer has claimed index `i`, whose value is ready and can be walked to. */
  ghost predicate CanTake(m: Memory, p: TakePoint, i: nat) {
    && i in m.hist.ready && i < |m.hist.log|
    && (match p
        case PopReturn(x) => x == Some(m.hist.log[i])
        case PopWalk(_, r, j) => j == i && Path(m, r, i)
        case PopAdvance(_, r, j) => j == i && Path(m, r, i)
        case _ => p.idx == i)
  }

  lemma TakeGoesOn(m: Memory, t: Tid, p: TakePoint, i: nat)
    requires Good(m) && TakeKnows(m, t, p) && CanTake(m, p, i) && !p.PopReturn?
    ensures TakeSafe(m, p)
    ensures var (m2, l2) := TakeStep(m, p);
      && l2.Taking? && CanTake(m2, l2.take, i) && TakeRank(l2.take) < TakeRank(p) && m2.hist.log == m.hist.log
  {
    TakeIsSafe(m, t, p);
    ReadyInHistory(m, i);
    if p.PopWalk? && m.heap[p.chunk].begin + CHUNK_SIZE <= i {
      assert Linked(m, p.chunk);
    }
  }

  lemma {:induction false} TakeReturns(s: State, t: Tid, i: nat) returns (n: nat)
    requires Inv(s) && t in s.threads && s.threads[t].Taking? && CanTake(s.mem, s.threads[t].take, i)
    ensures Pops(s, t, n, s.mem.hist.log[i])
    decreases TakeRank(s.threads[t].take)
  {
    var p := s.threads[t].take;
    if p.PopReturn? {
      n := 0;
    } else {
      assert Knows(s.mem, t, s.threads[t]);
      TakeGoesOn(s.mem, t, p, i);
      StepKeepsInv(s, Run(t, false));
      n := TakeReturns(Step(s, Run(t, false)), t, i);
      OneStepMore(s, t, n, s.mem.hist.log[i]);
      n := n + 1;
    }
  }

  /** The queue holds a value at its head that is ready and can be walked to. */
  ghost predicate HeadReady(m: Memory) {
    m.headIndex < m.tailIndex && m.headIndex in m.hist.ready && Path(m, m.headChunk, m.headIndex)
  }

  /** The consumer has loaded nothing that has changed since. */
  predicate Current(m: Memory, p: SeekPoint) {
    match p
    case PopLoadChunk => true
    case PopLoadHead(h) => h == m.headChunk
    case PopCheckNext(h) => h == m.headChunk
    case PopLoadNext(h) => h == m.headChunk
    case PopUnlink(h, _) => h == m.headChunk
    case _ => p.head == m.headChunk && p.idx == m.headIndex
  }

  function SeekRank(m: Memory, p: SeekPoint): nat {
    10 * (if m.headChunk * CHUNK_SIZE <= m.headIndex then m.headIndex - m.headChunk * CHUNK_SIZE else 0) +
    match p
    case PopLoadChunk => 9
    case PopLoadHead(_) => 8
    case PopLoadTail(_, _) => 7
    case PopReadCount(_, _) => 6
    case PopRefCount(_, _) => 5
    case PopCheckNext(_) => 4
    case PopLoadNext(_) => 3
    case PopUnlink(_, _) => 2
    case PopAcquire(_, _) => 1
    case PopClaim(_, _) => 0
  }

  /** A chunk that was read out completely lies before the head index. */
  lemma DrainedIsBehind(m: Memory, h: Ref)
    requires Good(m) && Drained(m.hist.done, h)
    ensures (h + 1) * CHUNK_SIZE <= m.headIndex
  {
    assert (h + 1) * CHUNK_SIZE - 1 in m.hist.done;
  }

  lemma SeekGoesOn(m: Memory, t: Tid, p: SeekPoint)
    requires Good(m) && SeekKnows(m, p) && Current(m, p) && HeadReady(m) && !p.PopClaim?
    ensures SeekSafe(m, p)
    ensures var (m2, l2) := SeekStep(m, t, p, false);
      && l2.Seeking? && Current(m2, l2.seek) && HeadReady(m2) && SeekRank(m2, l2.seek) < SeekRank(m, p)
      && m2.hist.log == m.hist.log && m2.headIndex == m.headIndex
  {
    SeekIsSafe(m, p);
    if p.PopCheckNext? || p.PopLoadNext? || p.PopUnlink? {
      DrainedIsBehind(m, p.head);
      assert Linked(m, p.head);
    }
    var m2 := SeekStep(m, t, p, false).0;
    assert forall c :: Linked(m2, c) <==> Linked(m, c);
  }

  lemma ClaimGoesOn(m: Memory, t: Tid, p: SeekPoint)
    requires Good(m) && SeekKnows(m, p) && Current(m, p) && HeadReady(m) && p.PopClaim?
    ensures var (m2, l2) := SeekStep(m, t, p, false);
      l2.Taking? && CanTake(m2, l2.take, m.headIndex) && m2.hist.log == m.hist.log
  {
    assert forall c :: Linked(ClaimHead(m, t), c) <==> Linked(m, c);
  }

  lemma {:induction false} SeekReturns(s: State, t: Tid) returns (n: nat)
    requires Inv(s) && t in s.threads && s.threads[t].Seeking?
    requires Current(s.mem, s.threads[t].seek) && HeadReady(s.mem)
    ensures Pops(s, t, n, s.mem.hist.log[s.mem.headIndex])
    decreases SeekRank(s.mem, s.threads[t].seek)
  {
    var p, s2 := s.threads[t].seek, Step(s, Run(t, false));
    assert Knows(s.mem, t, s.threads[t]);
    StepKeepsInv(s, Run(t, false));
    if p.PopClaim? {
      ClaimGoesOn(s.mem, t, p);
      n := TakeReturns(s2, t, s.mem.headIndex);
    } else {
      SeekGoesOn(s.mem, t, p);
      n := SeekReturns(s2, t);
    }
    OneStepMore(s, t, n, s.mem.hist.log[s.mem.headIndex]);
    n := n + 1;
  }

  /** Index `i` has no value ready, or its chunk cannot be walked to from chunk `r`. */
  ghost predicate Blocked(m: Memory, r: Ref, i: nat) { i !in m.hist.ready || !Path(m, r, i) }

  /** A consumer of a queue whose head is blocked has not got past the walk to its slot and the wait there. */
  ghost predicate Stuck(m: Memory, l: Local) {
    match l
    case Seeking(p) => Current(m, p) && m.headIndex < m.tailIndex && Blocked(m, m.headChunk, m.headIndex)
    case Taking(PopWalk(_, r, i)) => Blocked(m, r, i)
    case Taking(PopAdvance(_, r, i)) => Blocked(m, r, i)
    case Taking(PopLeave(_, _, i)) => i !in m.hist.ready
    case Taking(PopWait(_, _, i)) => i !in m.hist.ready
    case _ => false
  }

  lemma SeekStaysStuck(m: Memory, t: Tid, p: SeekPoint)
    requires Good(m) && SeekKnows(m, p) && Stuck(m, Seeking(p))
    ensures SeekSafe(m, p) && Stuck(SeekStep(m, t, p, false).0, SeekStep(m, t, p, false).1)
  {
    SeekIsSafe(m, p);
    var m2 := SeekStep(m, t, p, false).0;
    assert forall c :: Linked(m2, c) <==> Linked(m, c);
    if m.headIndex in m.hist.ready {
      var c :| m.headChunk <= c && (c + 1) * CHUNK_SIZE <= m.headIndex && !Linked(m, c);
      assert !Linked(m2, c);
    }
  }

  lemma TakeStaysStuck(m: Memory, t: Tid, p: TakePoint)
    requires Good(m) && TakeKnows(m, t, p) && Stuck(m, Taking(p))
    ensures TakeSafe(m, p) && Stuck(TakeStep(m, p).0, TakeStep(m, p).1)
  {
    TakeIsSafe(m, t, p);
    ReadyInHistory(m, p.idx);
    if (p.PopWalk? || p.PopAdvance?) && p.idx in m.hist.ready {
      var c :| p.chunk <= c && (c + 1) * CHUNK_SIZE <= p.idx && !Linked(m, c);
      assert !Linked(TakeStep(m, p).0, c);
    }
  }

  lemma {:induction false} StuckForever(s: State, t: Tid, n: nat)
    requires Inv(s) && Stuck(s.mem, At(s, t))
    ensures Stuck(Alone(s, t, n).mem, At(Alone(s, t, n), t))
    decreases n
  {
    if n > 0 {
      assert Knows(s.mem, t, s.threads[t]);
      match s.threads[t] {
        case Seeking(p) => SeekStaysStuck(s.mem, t, p);
        case Taking(p) => TakeStaysStuck(s.mem, t, p);
      }
      StepKeepsInv(s, Run(t, false));
      StuckForever(Step(s, Run(t, false)), t, n - 1);
    }
  }

  /** A `pop` has been called by thread `t` and has come to its return after `n` steps alone. */
  predicate PopEnds(s: State, t: Tid, n: nat) {
    var l := At(Alone(Step(s, InvokePop(t)), t, n), t);
    l.Taking? && l.take.PopReturn?
  }

  /** In every run, a `pop` of a queue that is not empty, running alone, returns if and only if the value at the
      head is ready and its chunk is linked; it then returns exactly this value. */
  lemma PopAloneReturnsIffReady(acts: seq<Action>, t: Tid)
    requires IsIdle(Exec(acts), t) && Exec(acts).mem.headIndex < Exec(acts).mem.tailIndex
    ensures var s := Exec(acts);
      && s.mem.headIndex < |s.mem.hist.log|
      && ((exists n :: PopEnds(s, t, n)) <==>
            SlotReady(s.mem, s.mem.headIndex) && Path(s.mem, s.mem.headChunk, s.mem.headIndex))
      && (SlotReady(s.mem, s.mem.headIndex) && Path(s.mem, s.mem.headChunk, s.mem.headIndex) ==>
            exists n :: Pops(Step(s, InvokePop(t)), t, n, s.mem.hist.log[s.mem.headIndex]))
  {
    InvHolds(acts);
    var s := Exec(acts);
    var s2 := Step(s, InvokePop(t));
    StepKeepsInv(s, InvokePop(t));
    ReadyInHistory(s.mem, s.mem.headIndex);
    if Blocked(s.mem, s.mem.headChunk, s.mem.headIndex) {
      forall n ensures !PopEnds(s, t, n) { StuckForever(s2, t, n); }
    } else {
      var n := SeekReturns(s2, t);
      assert PopEnds(s, t, n);
    }
  }

  /** On an empty queue it returns at once, with nothing. */
  lemma PopAloneOfEmpty(acts: seq<Action>, t: Tid)
    requires IsIdle(Exec(acts), t) && Exec(acts).mem.headIndex == Exec(acts).mem.tailIndex
    ensures At(Alone(Step(Exec(acts), InvokePop(t)), t, 3), t) == Taking(PopReturn(None))
  {
    var s := Step(Exec(acts), InvokePop(t));
    var a := Step(s, Run(t, false));
    var b := Step(a, Run(t, false));
    assert Alone(s, t, 3) == Alone(a, t, 2) == Alone(b, t, 1) == Step(b, Run(t, false));
  }

  // --- a producer that runs alone ---

  /** After `n` steps alone, the producer is done and its value is ready at index `i`. */
  ghost predicate Pushes(s: State, t: Tid, n: nat, i: nat, v: Value) {
    var s2 := Alone(s, t, n);
    && At(s2, t) == Pushing(PushReturn) && i in s2.mem.hist.ready
    && i < |s2.mem.hist.log| && s2.mem.hist.log[i] == v
  }

  function PushRank(m: Memory, p: PushPoint): nat {
    match p
    case PushLoadChunk(_) => 11
    case PushLoadIndex(_, _) => 10
    case PushClaim(_, _, _) => 9
    case PushBranch(_, _, _) => 8
    case PushPublish(_, _, _, _) => 7
    case PushLink(_, _, _, _) => 6
    case PushWalk(_, r, _) => if r == m.tailChunk then 3 else 5
    case PushAdvance(_, _, _) => 4
    case PushWrite(_, _, _) => 2
    case PushReady(_, _, _) => 1
    case PushReturn => 0
  }

  /** The producer of `v`, alone, has index `i` or will get it: the next to be claimed, in the last chunk or in
      the one after it. */
  ghost predicate CanPush(m: Memory, p: PushPoint, i: nat, v: Value) {
    var last := m.tailChunk;
    match p
    case PushLoadChunk(w) => w == v && i == m.tailIndex && i < (last + 2) * CHUNK_SIZE
    case PushLoadIndex(w, r) => w == v && i == m.tailIndex && i < (last + 2) * CHUNK_SIZE && r == last
    case PushClaim(w, r, j) => w == v && i == m.tailIndex == j && i < (last + 2) * CHUNK_SIZE && r == last
    case PushBranch(w, r, j) => w == v && j == i && i < (last + 2) * CHUNK_SIZE && r == last
    case PushPublish(w, r, j, _) => w == v && j == i && i < (last + 2) * CHUNK_SIZE && r == last
    case PushLink(w, r, j, _) => w == v && j == i && i < (last + 1) * CHUNK_SIZE && r + 1 == last
    case PushWalk(w, r, j) =>
      w == v && j == i && i < (last + 1) * CHUNK_SIZE && (r == last || (r + 1 == last && Linked(m, r)))
    case PushAdvance(w, r, j) => w == v && j == i && i < (last + 1) * CHUNK_SIZE && r + 1 == last
    case PushWrite(w, _, j) => w == v && j == i
    case PushReady(w, _, j) => w == v && j == i
    case PushReturn => i in m.hist.ready && i < |m.hist.log| && m.hist.log[i] == v
  }

  lemma PushGoesOn(m: Memory, t: Tid, p: PushPoint, i: nat, v: Value)
    requires Good(m) && PushKnows(m, t, p) && CanPush(m, p, i, v) && !p.PushReturn?
    ensures PushSafe(m, p)
    ensures var (m2, l2) := PushStep(m, t, p, false);
      l2.Pushing? && CanPush(m2, l2.push, i, v) && PushRank(m2, l2.push) < PushRank(m, p)
  {
    PushIsSafe(m, t, p);
  }

  lemma OnePushStepMore(s: State, t: Tid, n: nat, i: nat, v: Value)
    requires Pushes(Step(s, Run(t, false)), t, n, i, v)
    ensures Pushes(s, t, n + 1, i, v)
  {
  }

  lemma {:induction false} PushReturns(s: State, t: Tid, i: nat, v: Value) returns (n: nat)
    requires Inv(s) && t in s.threads && s.threads[t].Pushing? && CanPush(s.mem, s.threads[t].push, i, v)
    ensures Pushes(s, t, n, i, v)
    decreases PushRank(s.mem, s.threads[t].push)
  {
    if s.threads[t].push.PushReturn? {
      n := 0;
    } else {
      assert Knows(s.mem, t, s.threads[t]);
      PushGoesOn(s.mem, t, s.threads[t].push, i, v);
      StepKeepsInv(s, Run(t, false));
      n := PushReturns(Step(s, Run(t, false)), t, i, v);
      OnePushStepMore(s, t, n, i, v);
      n := n + 1;
    }
  }

  /** A producer alone whose index lies beyond the next chunk: it adds that chunk and waits for one more. */
  ghost predicate Beyond(m: Memory, p: PushPoint) {
    var last := m.tailChunk;
    match p
    case PushLoadChunk(_) => (last + 2) * CHUNK_SIZE <= m.tailIndex
    case PushLoadIndex(_, r) => (last + 2) * CHUNK_SIZE <= m.tailIndex && r == last
    case PushClaim(_, r, j) => (last + 2) * CHUNK_SIZE <= m.tailIndex == j && r == last
    case PushBranch(_, r, j) => (last + 2) * CHUNK_SIZE <= j && r == last
    case PushPublish(_, r, j, _) => (last + 2) * CHUNK_SIZE <= j && r == last
    case PushLink(_, r, j, _) => (last + 1) * CHUNK_SIZE <= j && r + 1 == last
    case PushWalk(_, r, j) => (last + 1) * CHUNK_SIZE <= j && (r == last || (r + 1 == last && Linked(m, r)))
    case PushAdvance(_, r, j) => (last + 1) * CHUNK_SIZE <= j && r + 1 == last
    case _ => false
  }

  lemma PushStaysBeyond(m: Memory, t: Tid, p: PushPoint)
    requires Good(m) && PushKnows(m, t, p) && Beyond(m, p)
    ensures PushSafe(m, p)
    ensures var (m2, l2) := PushStep(m, t, p, false); l2.Pushing? && Beyond(m2, l2.push)
  {
    PushIsSafe(m, t, p);
  }

  lemma {:induction false} BeyondForever(s: State, t: Tid, n: nat)
    requires Inv(s) && At(s, t).Pushing? && Beyond(s.mem, At(s, t).push)
    ensures var s2 := Alone(s, t, n); At(s2, t).Pushing? && Beyond(s2.mem, At(s2, t).push)
    decreases n
  {
    if n > 0 {
      assert Knows(s.mem, t, s.threads[t]);
      PushStaysBeyond(s.mem, t, s.threads[t].push);
      StepKeepsInv(s, Run(t, false));
      BeyondForever(Step(s, Run(t, false)), t, n - 1);
    }
  }

  /** A `push` has been called by thread `t` and has come to its return after `n` steps alone. */
  predicate PushEnds(s: State, t: Tid, v: Value, n: nat) {
    At(Alone(Step(s, InvokePush(t, v)), t, n), t) == Pushing(PushReturn)
  }

  /** In every run, a `push` that runs alone returns if and only if its index lies in the last chunk or the one
      after it; it then returns with its value ready at this index. */
  lemma PushAloneReturnsIffNear(acts: seq<Action>, t: Tid, v: Value)
    requires IsIdle(Exec(acts), t)
    ensures var s := Exec(acts);
      && ((exists n :: PushEnds(s, t, v, n)) <==> s.mem.tailIndex < (|s.mem.heap| + 1) * CHUNK_SIZE)
      && (s.mem.tailIndex < (|s.mem.heap| + 1) * CHUNK_SIZE ==>
            exists n :: Pushes(Step(s, InvokePush(t, v)), t, n, s.mem.tailIndex, v))
  {
    InvHolds(acts);
    var s := Exec(acts);
    var s2 := Step(s, InvokePush(t, v));
    StepKeepsInv(s, InvokePush(t, v));
    if s.mem.tailIndex < (|s.mem.heap| + 1) * CHUNK_SIZE {
      var n := PushReturns(s2, t, s.mem.tailIndex, v);
      assert PushEnds(s, t, v, n);
    } else {
      forall n ensures !PushEnds(s, t, v, n) { BeyondForever(s2, t, n); }
    }
  }
}
