/** The lock-free chunked queue, as a transition system.

    Every atomic load, store, compare-and-swap or read-modify-write of `push` and `pop` is one
    step of one thread; between two steps of a thread any other thread may run. Steps are
    sequentially consistent, `compare_exchange_weak` may fail at will, and a chunk that `pop`
    deletes stays in the heap, unlinked. A thread that would dereference a chunk that does not
    exist, or index outside a chunk's slots, goes to `Fault`.
  */
module MpmcQueue {
  import opened Options

  const CHUNK_SIZE: nat := 4096

  /** The element type; nothing is assumed of it. */
  type Value(==, !new)
  type Tid = nat
  /** A chunk pointer: chunks are numbered in the order in which they are published. */
  type Ref = nat

  datatype Slot = Slot(value: Option<Value>, ready: bool)

  datatype Chunk = Chunk(begin: nat, slots: seq<Slot>, next: Option<Ref>, readCount: int, refCount: int)

  function NewChunk(begin: nat): Chunk {
    Chunk(begin, seq(CHUNK_SIZE, _ => Slot(None, false)), None, 0, 0)
  }

  /** Where a thread stands in `push`, with its locals; each constructor is the action to do next. */
  datatype PushPoint =
    | PushLoadChunk(v: Value)
    | PushLoadIndex(v: Value, chunk: Ref)
    | PushClaim(v: Value, chunk: Ref, idx: nat)
    | PushBranch(v: Value, chunk: Ref, idx: nat)
    | PushPublish(v: Value, chunk: Ref, idx: nat, made: Chunk)
    | PushLink(v: Value, chunk: Ref, idx: nat, linked: Ref)
    | PushWalk(v: Value, chunk: Ref, idx: nat)
    | PushAdvance(v: Value, chunk: Ref, idx: nat)
    | PushWrite(v: Value, chunk: Ref, idx: nat)
    | PushReady(v: Value, chunk: Ref, idx: nat)
    | PushReturn

  /** Where a thread stands in `pop` before it has claimed an index. */
  datatype SeekPoint =
    | PopLoadChunk
    | PopLoadHead(head: Ref)
    | PopLoadTail(head: Ref, idx: nat)
    | PopReadCount(head: Ref, idx: nat)
    | PopRefCount(head: Ref, idx: nat)
    | PopCheckNext(head: Ref)
    | PopLoadNext(head: Ref)
    | PopUnlink(head: Ref, succ: Ref)
    | PopAcquire(head: Ref, idx: nat)
    | PopClaim(head: Ref, idx: nat)

  /** Where a thread stands in `pop` after it has claimed an index, or has found the queue empty. */
  datatype TakePoint =
    | PopWalk(head: Ref, chunk: Ref, idx: nat)
    | PopAdvance(head: Ref, chunk: Ref, idx: nat)
    | PopLeave(head: Ref, chunk: Ref, idx: nat)
    | PopWait(head: Ref, chunk: Ref, idx: nat)
    | PopTake(head: Ref, chunk: Ref, idx: nat)
    | PopCount(head: Ref, chunk: Ref, idx: nat, taken: Option<Value>)
    | PopRelease(head: Ref, idx: nat, taken: Option<Value>)
    | PopReturn(result: Option<Value>)

  datatype Local = Idle | Fault | Pushing(push: PushPoint) | Seeking(seek: SeekPoint) | Taking(take: TakePoint)

  /** History variables. They record what happened and are never read by a step. */
  datatype History = History(
    log: seq<Value>,            // values in the order of their successful claims of tail_index_
    pushedBy: seq<Tid>,     // who claimed each index for writing
    poppedBy: seq<Tid>,     // who claimed each index for reading
    publishedBy: seq<Tid>,  // who published each chunk
    written: set<nat>,      // indices whose value was stored
    ready: set<nat>,        // indices whose ready flag was set
    moved: set<nat>,        // indices whose value was moved out
    done: set<nat>,         // indices counted in read_count
    lost: multiset<Ref>     // claims lost after incrementing ref_count, per chunk
  )

  /** Memory that the threads share. */
  datatype Memory = Memory(
    headChunk: Ref, headIndex: nat, tailChunk: Ref, tailIndex: nat, heap: seq<Chunk>, hist: History)

  datatype State = State(mem: Memory, threads: map<Tid, Local>)

  function Init(): State {
    State(Memory(0, 0, 0, 0, [NewChunk(0)], History([], [], [], [0], {}, {}, {}, {}, multiset{})), map[])
  }

  /** One step of the whole system. `Run(t, true)` makes a weak compare-and-swap of `t` fail. */
  datatype Action = InvokePush(t: Tid, v: Value) | InvokePop(t: Tid) | Run(t: Tid, fail: bool)

  /** The calls and returns that the callers of the queue see. */
  datatype Event =
    | CallPush(t: Tid, v: Value)
    | ReturnPush(t: Tid)
    | CallPop(t: Tid)
    | ReturnPop(t: Tid, result: Option<Value>)

  predicate IsIdle(s: State, t: Tid) {
    t in s.threads ==> s.threads[t].Idle?
  }

  predicate Live(m: Memory, r: Ref) { r < |m.heap| }

  /** The index lies among the slots of chunk `r`. */
  predicate InChunk(m: Memory, r: Ref, idx: nat) {
    Live(m, r) && m.heap[r].begin <= idx < m.heap[r].begin + |m.heap[r].slots|
  }

  predicate Linked(m: Memory, r: Ref) { Live(m, r) && m.heap[r].next.Some? }

  // The memory that the next action touches exists.

  predicate PushSafe(m: Memory, p: PushPoint) {
    match p
    case PushBranch(_, r, _) => Live(m, r)
    case PushPublish(_, r, _, _) => Live(m, r)
    case PushLink(_, r, _, _) => Live(m, r)
    case PushWalk(_, r, _) => Live(m, r)
    case PushAdvance(_, r, _) => Linked(m, r)
    case PushWrite(_, r, i) => InChunk(m, r, i)
    case PushReady(_, r, i) => InChunk(m, r, i)
    case _ => true
  }

  predicate SeekSafe(m: Memory, p: SeekPoint) {
    match p
    case PopReadCount(h, _) => Live(m, h)
    case PopRefCount(h, _) => Live(m, h)
    case PopCheckNext(h) => Live(m, h)
    case PopLoadNext(h) => Linked(m, h)
    case PopAcquire(h, _) => Live(m, h)
    case _ => true
  }

  predicate TakeSafe(m: Memory, p: TakePoint) {
    match p
    case PopWalk(_, r, _) => Live(m, r)
    case PopAdvance(_, r, _) => Linked(m, r)
    case PopLeave(h, _, _) => Live(m, h)
    case PopWait(_, r, i) => InChunk(m, r, i)
    case PopTake(_, r, i) => InChunk(m, r, i)
    case PopCount(_, r, _, _) => Live(m, r)
    case PopRelease(h, _, _) => Live(m, h)
    case PopReturn(_) => true
  }

  // The actions on shared memory.

  function SlotAt(m: Memory, r: Ref, i: nat): Slot
    requires InChunk(m, r, i)
  {
    m.heap[r].slots[i - m.heap[r].begin]
  }

  function SetSlot(m: Memory, r: Ref, i: nat, x: Slot): Memory
    requires InChunk(m, r, i)
  {
    m.(heap := m.heap[r := m.heap[r].(slots := m.heap[r].slots[i - m.heap[r].begin := x])])
  }

  function ClaimTail(m: Memory, t: Tid, v: Value): Memory {
    m.(tailIndex := m.tailIndex + 1, hist := m.hist.(log := m.hist.log + [v], pushedBy := m.hist.pushedBy + [t]))
  }

  function Publish(m: Memory, t: Tid, made: Chunk): Memory {
    m.(tailChunk := |m.heap|, heap := m.heap + [made], hist := m.hist.(publishedBy := m.hist.publishedBy + [t]))
  }

  function Link(m: Memory, r: Ref, n: Ref): Memory
    requires Live(m, r)
  {
    m.(heap := m.heap[r := m.heap[r].(next := Some(n))])
  }

  function Write(m: Memory, r: Ref, i: nat, v: Value): Memory
    requires InChunk(m, r, i)
  {
    SetSlot(m, r, i, SlotAt(m, r, i).(value := Some(v))).(hist := m.hist.(written := m.hist.written + {i}))
  }

  function MakeReady(m: Memory, r: Ref, i: nat): Memory
    requires InChunk(m, r, i)
  {
    SetSlot(m, r, i, SlotAt(m, r, i).(ready := true)).(hist := m.hist.(ready := m.hist.ready + {i}))
  }

  function AddRef(m: Memory, h: Ref, d: int): Memory
    requires Live(m, h)
  {
    m.(heap := m.heap[h := m.heap[h].(refCount := m.heap[h].refCount + d)])
  }

  function ClaimHead(m: Memory, t: Tid): Memory {
    m.(headIndex := m.headIndex + 1, hist := m.hist.(poppedBy := m.hist.poppedBy + [t]))
  }

  function LoseClaim(m: Memory, h: Ref): Memory {
    m.(hist := m.hist.(lost := m.hist.lost + multiset{h}))
  }

  function MoveOut(m: Memory, r: Ref, i: nat): Memory
    requires InChunk(m, r, i)
  {
    SetSlot(m, r, i, SlotAt(m, r, i).(value := None)).(hist := m.hist.(moved := m.hist.moved + {i}))
  }

  function CountRead(m: Memory, r: Ref, i: nat): Memory
    requires Live(m, r)
  {
    m.(heap := m.heap[r := m.heap[r].(readCount := m.heap[r].readCount + 1)],
       hist := m.hist.(done := m.hist.done + {i}))
  }

  /** The body of `push`, one action at a time: the new memory and where the thread stands then. */
  function PushStep(m: Memory, t: Tid, p: PushPoint, fail: bool): (Memory, Local)
    requires PushSafe(m, p)
  {
    match p
    case PushLoadChunk(v) => (m, Pushing(PushLoadIndex(v, m.tailChunk)))
    case PushLoadIndex(v, r) => (m, Pushing(PushClaim(v, r, m.tailIndex)))
    case PushClaim(v, r, i) =>
      if m.tailIndex == i && !fail then (ClaimTail(m, t, v), Pushing(PushBranch(v, r, i)))
      else (m, Pushing(PushLoadChunk(v)))
    case PushBranch(v, r, i) =>
      if i >= m.heap[r].begin + CHUNK_SIZE then
        (m, Pushing(PushPublish(v, r, i, NewChunk(m.heap[r].begin + CHUNK_SIZE))))
      else
        (m, Pushing(PushWrite(v, r, i)))
    case PushPublish(v, r, i, made) =>
      if m.tailChunk == r then (Publish(m, t, made), Pushing(PushLink(v, r, i, |m.heap|)))
      else (m, Pushing(PushWalk(v, r, i)))
    case PushLink(v, r, i, n) => (Link(m, r, n), Pushing(PushWalk(v, r, i)))
    case PushWalk(v, r, i) =>
      if m.heap[r].begin + CHUNK_SIZE <= i then
        (m, Pushing(if m.heap[r].next.None? then p else PushAdvance(v, r, i)))
      else
        (m, Pushing(PushWrite(v, r, i)))
    case PushAdvance(v, r, i) => (m, Pushing(PushWalk(v, m.heap[r].next.value, i)))
    case PushWrite(v, r, i) => (Write(m, r, i, v), Pushing(PushReady(v, r, i)))
    case PushReady(v, r, i) => (MakeReady(m, r, i), Pushing(PushReturn))
    case PushReturn => (m, Idle)
  }

  /** The body of `pop` up to the claim of an index, one action at a time. */
  function SeekStep(m: Memory, t: Tid, p: SeekPoint, fail: bool): (Memory, Local)
    requires SeekSafe(m, p)
  {
    match p
    case PopLoadChunk => (m, Seeking(PopLoadHead(m.headChunk)))
    case PopLoadHead(h) => (m, Seeking(PopLoadTail(h, m.headIndex)))
    case PopLoadTail(h, i) => (m, if i == m.tailIndex then Taking(PopReturn(None)) else Seeking(PopReadCount(h, i)))
    case PopReadCount(h, i) =>
      (m, Seeking(if m.heap[h].readCount == CHUNK_SIZE then PopRefCount(h, i) else PopAcquire(h, i)))
    case PopRefCount(h, i) => (m, Seeking(if m.heap[h].refCount == 0 then PopCheckNext(h) else PopAcquire(h, i)))
    case PopCheckNext(h) => (m, Seeking(if m.heap[h].next.None? then PopLoadChunk else PopLoadNext(h)))
    case PopLoadNext(h) => (m, Seeking(PopUnlink(h, m.heap[h].next.value)))
    case PopUnlink(h, n) => (if m.headChunk == h && !fail then m.(headChunk := n) else m, Seeking(PopLoadChunk))
    case PopAcquire(h, i) => (AddRef(m, h, 1), Seeking(PopClaim(h, i)))
    case PopClaim(h, i) =>
      if m.headIndex == i && !fail then (ClaimHead(m, t), Taking(PopWalk(h, h, i)))
      else (LoseClaim(m, h), Seeking(PopLoadChunk))
  }

  /** The body of `pop` after the claim, one action at a time. */
  function TakeStep(m: Memory, p: TakePoint): (Memory, Local)
    requires TakeSafe(m, p)
  {
    match p
    case PopWalk(h, r, i) =>
      if m.heap[r].begin + CHUNK_SIZE <= i then
        (m, Taking(if m.heap[r].next.None? then p else PopAdvance(h, r, i)))
      else
        (m, Taking(if r != h then PopLeave(h, r, i) else PopWait(h, r, i)))
    case PopAdvance(h, r, i) => (m, Taking(PopWalk(h, m.heap[r].next.value, i)))
    case PopLeave(h, r, i) => (AddRef(m, h, -1), Taking(PopWait(h, r, i)))
    case PopWait(h, r, i) => (m, Taking(if SlotAt(m, r, i).ready then PopTake(h, r, i) else p))
    case PopTake(h, r, i) => (MoveOut(m, r, i), Taking(PopCount(h, r, i, SlotAt(m, r, i).value)))
    case PopCount(h, r, i, x) => (CountRead(m, r, i), Taking(if r == h then PopRelease(h, i, x) else PopReturn(x)))
    case PopRelease(h, _, x) => (AddRef(m, h, -1), Taking(PopReturn(x)))
    case PopReturn(_) => (m, Idle)
  }

  /** The next action of a thread that stands at `l`. */
  function Act(m: Memory, t: Tid, l: Local, fail: bool): (Memory, Local) {
    match l
    case Pushing(p) => if PushSafe(m, p) then PushStep(m, t, p, fail) else (m, Fault)
    case Seeking(p) => if SeekSafe(m, p) then SeekStep(m, t, p, fail) else (m, Fault)
    case Taking(p) => if TakeSafe(m, p) then TakeStep(m, p) else (m, Fault)
    case _ => (m, l)
  }

  /** An action that is not enabled leaves the state as it is. */
  function Step(s: State, a: Action): State {
    match a
    case InvokePush(t, v) => if IsIdle(s, t) then s.(threads := s.threads[t := Pushing(PushLoadChunk(v))]) else s
    case InvokePop(t) => if IsIdle(s, t) then s.(threads := s.threads[t := Seeking(PopLoadChunk)]) else s
    case Run(t, fail) =>
      if t in s.threads then
        var (m, l) := Act(s.mem, t, s.threads[t], fail);
        State(m, s.threads[t := l])
      else
        s
  }

  function Emit(s: State, a: Action): seq<Event> {
    match a
    case InvokePush(t, v) => if IsIdle(s, t) then [CallPush(t, v)] else []
    case InvokePop(t) => if IsIdle(s, t) then [CallPop(t)] else []
    case Run(t, _) =>
      if t !in s.threads then []
      else match s.threads[t]
        case Pushing(PushReturn) => [ReturnPush(t)]
        case Taking(PopReturn(x)) => [ReturnPop(t, x)]
        case _ => []
  }

  /** The state and the visible events after any schedule of actions of any threads. */
  function Exec(acts: seq<Action>): State {
    if acts == [] then Init() else Step(Exec(acts[..|acts| - 1]), acts[|acts| - 1])
  }

  function Trace(acts: seq<Action>): seq<Event> {
    if acts == [] then []
    else Trace(acts[..|acts| - 1]) + Emit(Exec(acts[..|acts| - 1]), acts[|acts| - 1])
  }
}
