/** The inductive invariant of the queue: it holds in every state any schedule can reach. */
module MpmcInvariant {
  import opened Options
  import opened MpmcQueue

  /** The reads of chunk `c`, whose indices start at c * CHUNK_SIZE, that have completed. */
  ghost function ReadsDone(done: set<nat>, c: Ref): set<nat> {
    set i | i in done && c * CHUNK_SIZE <= i < (c + 1) * CHUNK_SIZE
  }

  /** Chunk `c` has been read out completely. */
  ghost predicate Drained(done: set<nat>, c: Ref) {
    forall i: nat :: c * CHUNK_SIZE <= i < (c + 1) * CHUNK_SIZE ==> i in done
  }

  /** The consumer holds a reference on chunk `c`: it is between its increment and its decrement. */
  predicate Holds(l: Local, c: Ref) {
    match l
    case Seeking(PopClaim(h, _)) => h == c
    case Taking(p) =>
      (match p
       case PopReturn(_) => false
       case PopRelease(h, _, _) => h == c
       case PopWait(h, r, _) => h == c && r == c
       case PopTake(h, r, _) => h == c && r == c
       case PopCount(h, r, _, _) => h == c && r == c
       case _ => p.head == c)
    case _ => false
  }

  ghost function Holders(threads: map<Tid, Local>, c: Ref): set<Tid> {
    set t | t in threads && Holds(threads[t], c)
  }

  /** Chunks lie back to back, and a link always leads to the chunk published next. */
  ghost predicate Chain(m: Memory) {
    && m.headChunk < |m.heap| == |m.hist.publishedBy|
    && m.tailChunk == |m.heap| - 1
    && (forall c {:trigger m.heap[c]} :: 0 <= c < |m.heap| ==>
          && m.heap[c].begin == c * CHUNK_SIZE
          && |m.heap[c].slots| == CHUNK_SIZE
          && (m.heap[c].next.Some? ==> m.heap[c].next.value == c + 1 < |m.heap|))
  }

  /** Claims, stores, moves and counts happen in this order at every index. */
  ghost predicate Indices(m: Memory) {
    && m.headIndex <= m.tailIndex
    && |m.hist.log| == |m.hist.pushedBy| == m.tailIndex
    && |m.hist.poppedBy| == m.headIndex
    && m.headChunk * CHUNK_SIZE <= m.headIndex
    && m.tailChunk * CHUNK_SIZE <= m.tailIndex
    && m.hist.done <= m.hist.moved <= m.hist.ready <= m.hist.written
    && (forall i :: i in m.hist.written ==> i < m.tailIndex && i < |m.heap| * CHUNK_SIZE)
    && (forall i :: i in m.hist.moved ==> i < m.headIndex)
    && (forall c: Ref :: c < m.headChunk ==> Drained(m.hist.done, c))
  }

  /** What the slots hold: a value from its store until it is moved out, and a flag from then on. */
  ghost predicate Slots(m: Memory)
    requires Chain(m) && Indices(m)
  {
    forall c, k {:trigger m.heap[c].slots[k]} :: 0 <= c < |m.heap| && 0 <= k < CHUNK_SIZE ==>
      var i := c * CHUNK_SIZE + k;
      && (m.heap[c].slots[k].ready <==> i in m.hist.ready)
      && m.heap[c].slots[k].value == (if i in m.hist.written && i !in m.hist.moved then Some(m.hist.log[i]) else None)
  }

  ghost predicate ReadCounts(m: Memory) {
    forall c {:trigger m.heap[c]} :: 0 <= c < |m.heap| ==> m.heap[c].readCount == |ReadsDone(m.hist.done, c)|
  }

  ghost predicate Good(m: Memory) {
    Chain(m) && Indices(m) && Slots(m) && ReadCounts(m)
  }

  /** Thread `t` owns index `i` as a producer of `v`. */
  ghost predicate OwnsPush(m: Memory, t: Tid, i: nat, v: Value) {
    && i < |m.hist.pushedBy| && m.hist.pushedBy[i] == t
    && i < |m.hist.log| && m.hist.log[i] == v
    && i !in m.hist.ready
  }

  /** Thread `t` owns index `i` as a consumer. */
  ghost predicate OwnsPop(m: Memory, t: Tid, i: nat) {
    && i < |m.hist.poppedBy| && m.hist.poppedBy[i] == t
    && i !in m.hist.done && i < |m.hist.log|
  }

  /** A producer's index lies in chunk `r`, or in a later one. */
  ghost predicate From(m: Memory, r: Ref, i: nat) { Live(m, r) && r * CHUNK_SIZE <= i }

  ghost predicate After(m: Memory, r: Ref, i: nat) { Live(m, r) && (r + 1) * CHUNK_SIZE <= i }

  ghost predicate Within(m: Memory, r: Ref, i: nat) { From(m, r, i) && i < (r + 1) * CHUNK_SIZE }

  // What thread `t` knows at each program point.

  ghost predicate PushKnows(m: Memory, t: Tid, p: PushPoint) {
    match p
    case PushLoadChunk(_) => true
    case PushLoadIndex(_, r) => From(m, r, m.tailIndex)
    case PushClaim(_, r, i) => From(m, r, i)
    case PushBranch(v, r, i) => OwnsPush(m, t, i, v) && i !in m.hist.written && From(m, r, i)
    case PushPublish(v, r, i, c) =>
      OwnsPush(m, t, i, v) && i !in m.hist.written && After(m, r, i) && c == NewChunk((r + 1) * CHUNK_SIZE)
    case PushLink(v, r, i, n) =>
      && OwnsPush(m, t, i, v) && i !in m.hist.written && After(m, r, i)
      && n == r + 1 < |m.heap| && n < |m.hist.publishedBy| && m.hist.publishedBy[n] == t && m.heap[r].next.None?
    case PushWalk(v, r, i) => OwnsPush(m, t, i, v) && i !in m.hist.written && From(m, r, i)
    case PushAdvance(v, r, i) => OwnsPush(m, t, i, v) && i !in m.hist.written && After(m, r, i) && Linked(m, r)
    case PushWrite(v, r, i) => OwnsPush(m, t, i, v) && i !in m.hist.written && Within(m, r, i)
    case PushReady(v, r, i) => OwnsPush(m, t, i, v) && i in m.hist.written && Within(m, r, i)
    case PushReturn => true
  }

  ghost predicate SeekKnows(m: Memory, p: SeekPoint) {
    match p
    case PopLoadChunk => true
    case PopLoadHead(h) => From(m, h, m.headIndex)
    case PopLoadTail(h, i) => From(m, h, i) && i <= m.headIndex
    case PopReadCount(h, i) => From(m, h, i) && i < m.tailIndex
    case PopRefCount(h, i) => From(m, h, i) && i < m.tailIndex && Drained(m.hist.done, h)
    case PopCheckNext(h) => Live(m, h) && Drained(m.hist.done, h)
    case PopLoadNext(h) => Linked(m, h) && Drained(m.hist.done, h)
    case PopUnlink(h, n) => n == h + 1 && Linked(m, h) && Live(m, n) && Drained(m.hist.done, h)
    case PopAcquire(h, i) => From(m, h, i) && i < m.tailIndex
    case PopClaim(h, i) => From(m, h, i) && i < m.tailIndex
  }

  ghost predicate TakeKnows(m: Memory, t: Tid, p: TakePoint) {
    match p
    case PopWalk(h, r, i) => OwnsPop(m, t, i) && i !in m.hist.moved && h <= r && From(m, r, i)
    case PopAdvance(h, r, i) => OwnsPop(m, t, i) && i !in m.hist.moved && h <= r && After(m, r, i) && Linked(m, r)
    case PopLeave(h, r, i) => OwnsPop(m, t, i) && i !in m.hist.moved && h < r && Within(m, r, i)
    case PopWait(h, r, i) => OwnsPop(m, t, i) && i !in m.hist.moved && h <= r && Within(m, r, i)
    case PopTake(h, r, i) => OwnsPop(m, t, i) && i !in m.hist.moved && i in m.hist.ready && h <= r && Within(m, r, i)
    case PopCount(h, r, i, x) =>
      OwnsPop(m, t, i) && i in m.hist.moved && h <= r && Within(m, r, i) && x == Some(m.hist.log[i])
    case PopRelease(h, i, x) => Live(m, h) && i < |m.hist.log| && x == Some(m.hist.log[i])
    case PopReturn(_) => true
  }

  ghost predicate Knows(m: Memory, t: Tid, l: Local) {
    match l
    case Idle => true
    case Fault => false
    case Pushing(p) => PushKnows(m, t, p)
    case Seeking(p) => SeekKnows(m, p)
    case Taking(p) => TakeKnows(m, t, p)
  }

  predicate AtLink(l: Local, c: Ref) { l.Pushing? && l.push.PushLink? && l.push.chunk == c }

  /** A published chunk is linked, or its publisher is about to link it. */
  ghost predicate Links(s: State)
    requires Chain(s.mem)
  {
    forall c {:trigger s.mem.heap[c]} :: 0 <= c < |s.mem.heap| - 1 && s.mem.heap[c].next.None? ==>
      var t := s.mem.hist.publishedBy[c + 1];
      t in s.threads && AtLink(s.threads[t], c)
  }

  /** A chunk's ref_count without the claims that were lost after incrementing it. */
  ghost function NetRefs(m: Memory, c: Ref): int {
    (if Live(m, c) then m.heap[c].refCount else 0) - m.hist.lost[c]
  }

  ghost predicate RefCounts(s: State) {
    forall c :: NetRefs(s.mem, c) == |Holders(s.threads, c)|
  }

  ghost predicate Inv(s: State) {
    && Good(s.mem) && Links(s) && RefCounts(s)
    && forall t :: t in s.threads ==> Knows(s.mem, t, s.threads[t])
  }

  // --- a step of one thread and what it leaves to the others ---

  /** `m2` is `m` after a step of thread `t`: cursors and histories only grow, and what is new in
      the per-index and per-link history belongs to `t`. */
  ghost predicate Evolves(m: Memory, m2: Memory, t: Tid) {
    && |m.heap| <= |m2.heap|
    && m.headChunk <= m2.headChunk && m.headIndex <= m2.headIndex && m.tailIndex <= m2.tailIndex
    && m.hist.log <= m2.hist.log && m.hist.pushedBy <= m2.hist.pushedBy && m.hist.poppedBy <= m2.hist.poppedBy
    && m.hist.publishedBy <= m2.hist.publishedBy
    && |m2.hist.publishedBy| == |m2.heap| && |m.hist.publishedBy| == |m.heap|
    && (forall c {:trigger m2.heap[c]} :: 0 <= c < |m.heap| ==>
          || m2.heap[c].next == m.heap[c].next
          || (m.heap[c].next.None? && c + 1 < |m.heap| && m.hist.publishedBy[c + 1] == t))
    && m.hist.written <= m2.hist.written && m.hist.ready <= m2.hist.ready
    && m.hist.moved <= m2.hist.moved && m.hist.done <= m2.hist.done
    && (forall i :: i in m2.hist.written - m.hist.written ==> i < |m.hist.pushedBy| && m.hist.pushedBy[i] == t)
    && (forall i :: i in m2.hist.ready - m.hist.ready ==> i < |m.hist.pushedBy| && m.hist.pushedBy[i] == t)
    && (forall i :: i in m2.hist.moved - m.hist.moved ==> i < |m.hist.poppedBy| && m.hist.poppedBy[i] == t)
    && (forall i :: i in m2.hist.done - m.hist.done ==> i < |m.hist.poppedBy| && m.hist.poppedBy[i] == t)
  }

  /** A step of `t` never invalidates what another thread knows. */
  lemma KnowledgeIsStable(m: Memory, m2: Memory, t: Tid, u: Tid, l: Local)
    requires Evolves(m, m2, t) && t != u && Knows(m, u, l)
    ensures Knows(m2, u, l)
  {
    DrainedGrows(m.hist.done, m2.hist.done);
  }

  lemma DrainedGrows(done: set<nat>, done2: set<nat>)
    requires done <= done2
    ensures forall c: Ref :: Drained(done, c) ==> Drained(done2, c)
  {
  }

  lemma HoldersAfter(threads: map<Tid, Local>, t: Tid, l: Local, c: Ref)
    ensures |Holders(threads[t := l], c)| == |Holders(threads, c)|
      + (if Holds(l, c) then 1 else 0) - (if t in threads && Holds(threads[t], c) then 1 else 0)
  {
    var before, after := Holders(threads, c), Holders(threads[t := l], c);
    assert after == if Holds(l, c) then before + {t} else before - {t};
  }

  lemma {:induction false} SizeWithin(x: set<nat>, lo: nat, hi: nat)
    requires lo <= hi && forall i :: i in x ==> lo <= i < hi
    ensures |x| <= hi - lo
    decreases hi - lo
  {
    if lo < hi {
      SizeWithin(x - {hi - 1}, lo, hi - 1);
    } else {
      assert x == {};
    }
  }

  /** CHUNK_SIZE completed reads in a chunk are all its reads. */
  lemma FullCountDrains(done: set<nat>, c: Ref)
    requires |ReadsDone(done, c)| >= CHUNK_SIZE
    ensures Drained(done, c)
  {
    forall i: nat | c * CHUNK_SIZE <= i < (c + 1) * CHUNK_SIZE
      ensures i in done
    {
      if i !in done {
        var low := set j | j in ReadsDone(done, c) && j < i;
        var high := ReadsDone(done, c) - low;
        SizeWithin(low, c * CHUNK_SIZE, i);
        SizeWithin(high, i + 1, (c + 1) * CHUNK_SIZE);
      }
    }
  }

  // --- every action keeps the memory good and evolves it ---

  ghost predicate Fits(m: Memory, t: Tid, m2: Memory) { Good(m2) && Evolves(m, m2, t) }

  lemma ClaimTailFits(m: Memory, t: Tid, v: Value)
    requires Good(m)
    ensures Fits(m, t, ClaimTail(m, t, v))
  {
  }

  lemma PublishFits(m: Memory, t: Tid, i: nat)
    requires Good(m) && i < m.tailIndex && |m.heap| * CHUNK_SIZE <= i
    ensures Fits(m, t, Publish(m, t, NewChunk(|m.heap| * CHUNK_SIZE)))
  {
    assert ReadsDone(m.hist.done, |m.heap|) == {};
  }

  lemma LinkFits(m: Memory, t: Tid, r: Ref)
    requires Good(m) && r + 1 < |m.heap| && m.hist.publishedBy[r + 1] == t && m.heap[r].next.None?
    ensures Fits(m, t, Link(m, r, r + 1))
  {
  }

  lemma WriteFits(m: Memory, t: Tid, r: Ref, i: nat, v: Value)
    requires Good(m) && InChunk(m, r, i) && OwnsPush(m, t, i, v) && i !in m.hist.written
    ensures Fits(m, t, Write(m, r, i, v))
  {
  }

  lemma MakeReadyFits(m: Memory, t: Tid, r: Ref, i: nat, v: Value)
    requires Good(m) && InChunk(m, r, i) && OwnsPush(m, t, i, v) && i in m.hist.written
    ensures Fits(m, t, MakeReady(m, r, i))
  {
  }

  /** head_chunk_ may move on past a chunk that was read out completely. */
  lemma UnlinkFits(m: Memory, t: Tid)
    requires Good(m) && Drained(m.hist.done, m.headChunk) && m.headChunk + 1 < |m.heap|
    ensures Fits(m, t, m.(headChunk := m.headChunk + 1))
  {
    assert (m.headChunk + 1) * CHUNK_SIZE - 1 in m.hist.done;
  }

  lemma AddRefFits(m: Memory, t: Tid, h: Ref, d: int)
    requires Good(m) && Live(m, h)
    ensures Fits(m, t, AddRef(m, h, d))
  {
  }

  lemma ClaimHeadFits(m: Memory, t: Tid)
    requires Good(m) && m.headIndex < m.tailIndex
    ensures Fits(m, t, ClaimHead(m, t))
  {
  }

  lemma LoseClaimFits(m: Memory, t: Tid, h: Ref)
    requires Good(m)
    ensures Fits(m, t, LoseClaim(m, h))
  {
  }

  lemma MoveOutFits(m: Memory, t: Tid, r: Ref, i: nat)
    requires Good(m) && InChunk(m, r, i) && OwnsPop(m, t, i) && i in m.hist.ready && i !in m.hist.moved
    ensures Fits(m, t, MoveOut(m, r, i)) && SlotAt(m, r, i).value == Some(m.hist.log[i])
  {
  }

  lemma OneMoreRead(done: set<nat>, r: Ref, i: nat)
    requires i !in done && r * CHUNK_SIZE <= i < (r + 1) * CHUNK_SIZE
    ensures forall c: Ref :: |ReadsDone(done + {i}, c)| == |ReadsDone(done, c)| + if c == r then 1 else 0
  {
    forall c: Ref
      ensures |ReadsDone(done + {i}, c)| == |ReadsDone(done, c)| + if c == r then 1 else 0
    {
      assert ReadsDone(done + {i}, c) == ReadsDone(done, c) + if c == r then {i} else {};
    }
  }

  lemma CountReadFits(m: Memory, t: Tid, r: Ref, i: nat)
    requires Good(m) && InChunk(m, r, i) && OwnsPop(m, t, i) && i in m.hist.moved
    ensures Fits(m, t, CountRead(m, r, i))
  {
    DrainedGrows(m.hist.done, m.hist.done + {i});
    OneMoreRead(m.hist.done, r, i);
  }

  lemma Unchanged(m: Memory, t: Tid)
    requires Good(m)
    ensures Fits(m, t, m)
  {
  }

  // --- the next action of a thread that knows what it must ---

  lemma PushIsSafe(m: Memory, t: Tid, p: PushPoint)
    requires Chain(m) && PushKnows(m, t, p)
    ensures PushSafe(m, p)
  {
  }

  lemma SeekIsSafe(m: Memory, p: SeekPoint)
    requires Chain(m) && SeekKnows(m, p)
    ensures SeekSafe(m, p)
  {
  }

  lemma TakeIsSafe(m: Memory, t: Tid, p: TakePoint)
    requires Chain(m) && TakeKnows(m, t, p)
    ensures TakeSafe(m, p)
  {
  }

  /** The steps of `push` that add a chunk. */
  lemma PushChunkFits(m: Memory, t: Tid, p: PushPoint, fail: bool)
    requires Good(m) && PushKnows(m, t, p) && PushSafe(m, p) && (p.PushPublish? || p.PushLink?)
    ensures Fits(m, t, PushStep(m, t, p, fail).0)
  {
    if p.PushLink? {
      LinkFits(m, t, p.chunk);
    } else if m.tailChunk == p.chunk {
      PublishFits(m, t, p.idx);
    } else {
      Unchanged(m, t);
    }
  }

  /** The steps of `push` that fill a slot. */
  lemma PushSlotFits(m: Memory, t: Tid, p: PushPoint, fail: bool)
    requires Good(m) && PushKnows(m, t, p) && PushSafe(m, p) && (p.PushWrite? || p.PushReady?)
    ensures Fits(m, t, PushStep(m, t, p, fail).0)
  {
    if p.PushWrite? {
      WriteFits(m, t, p.chunk, p.idx, p.v);
    } else {
      MakeReadyFits(m, t, p.chunk, p.idx, p.v);
    }
  }

  lemma PushStepFits(m: Memory, t: Tid, p: PushPoint, fail: bool)
    requires Good(m) && PushKnows(m, t, p)
    ensures PushSafe(m, p) && Fits(m, t, PushStep(m, t, p, fail).0)
  {
    PushIsSafe(m, t, p);
    if p.PushPublish? || p.PushLink? {
      PushChunkFits(m, t, p, fail);
    } else if p.PushWrite? || p.PushReady? {
      PushSlotFits(m, t, p, fail);
    } else {
      Unchanged(m, t);
      if p.PushClaim? { ClaimTailFits(m, t, p.v); }
    }
  }

  lemma SeekStepFits(m: Memory, t: Tid, p: SeekPoint, fail: bool)
    requires Good(m) && SeekKnows(m, p)
    ensures SeekSafe(m, p) && Fits(m, t, SeekStep(m, t, p, fail).0)
  {
    match p
    case PopUnlink(h, n) => Unchanged(m, t); if m.headChunk == h { UnlinkFits(m, t); }
    case PopAcquire(h, i) => AddRefFits(m, t, h, 1);
    case PopClaim(h, i) => LoseClaimFits(m, t, h); if m.headIndex == i { ClaimHeadFits(m, t); }
    case _ => Unchanged(m, t);
  }

  lemma TakeStepFits(m: Memory, t: Tid, p: TakePoint)
    requires Good(m) && TakeKnows(m, t, p)
    ensures TakeSafe(m, p) && Fits(m, t, TakeStep(m, p).0)
  {
    match p
    case PopLeave(h, r, i) => AddRefFits(m, t, h, -1);
    case PopTake(h, r, i) => MoveOutFits(m, t, r, i);
    case PopCount(h, r, i, x) => CountReadFits(m, t, r, i);
    case PopRelease(h, i, x) => AddRefFits(m, t, h, -1);
    case _ => Unchanged(m, t);
  }

  /** After the claim of an index, its producer owns it. */
  lemma PushClaimKnows(m: Memory, t: Tid, p: PushPoint, fail: bool)
    requires Good(m) && PushKnows(m, t, p) && p.PushClaim?
    ensures Knows(PushStep(m, t, p, fail).0, t, PushStep(m, t, p, fail).1)
  {
  }

  lemma PushPublishKnows(m: Memory, t: Tid, p: PushPoint, fail: bool)
    requires Good(m) && PushKnows(m, t, p) && PushSafe(m, p) && (p.PushPublish? || p.PushLink?)
    ensures Knows(PushStep(m, t, p, fail).0, t, PushStep(m, t, p, fail).1)
  {
  }

  lemma PushStepKnows(m: Memory, t: Tid, p: PushPoint, fail: bool)
    requires Good(m) && PushKnows(m, t, p) && PushSafe(m, p)
    ensures Knows(PushStep(m, t, p, fail).0, t, PushStep(m, t, p, fail).1)
  {
    if p.PushClaim? {
      PushClaimKnows(m, t, p, fail);
    } else if p.PushPublish? || p.PushLink? {
      PushPublishKnows(m, t, p, fail);
    }
  }

  lemma SeekStepKnows(m: Memory, t: Tid, p: SeekPoint, fail: bool)
    requires Good(m) && SeekKnows(m, p) && SeekSafe(m, p)
    ensures Knows(SeekStep(m, t, p, fail).0, t, SeekStep(m, t, p, fail).1)
  {
    if p.PopReadCount? && m.heap[p.head].readCount == CHUNK_SIZE {
      FullCountDrains(m.hist.done, p.head);
    }
  }

  lemma TakeStepKnows(m: Memory, t: Tid, p: TakePoint)
    requires Good(m) && TakeKnows(m, t, p) && TakeSafe(m, p)
    ensures Knows(TakeStep(m, p).0, t, TakeStep(m, p).1)
  {
    if p.PopTake? {
      MoveOutFits(m, t, p.chunk, p.idx);
    }
  }

  lemma ActSound(m: Memory, t: Tid, l: Local, fail: bool)
    requires Good(m) && Knows(m, t, l)
    ensures Fits(m, t, Act(m, t, l, fail).0) && Knows(Act(m, t, l, fail).0, t, Act(m, t, l, fail).1)
  {
    match l
    case Pushing(p) => PushStepFits(m, t, p, fail); PushStepKnows(m, t, p, fail);
    case Seeking(p) => SeekStepFits(m, t, p, fail); SeekStepKnows(m, t, p, fail);
    case Taking(p) => TakeStepFits(m, t, p); TakeStepKnows(m, t, p);
    case _ => Unchanged(m, t);
  }

  function Held(l: Local, c: Ref): int { if Holds(l, c) then 1 else 0 }

  lemma PushStepRefs(m: Memory, t: Tid, p: PushPoint, fail: bool, c: Ref)
    requires PushSafe(m, p) && PushKnows(m, t, p)
    ensures NetRefs(PushStep(m, t, p, fail).0, c) == NetRefs(m, c)
    ensures Held(PushStep(m, t, p, fail).1, c) == 0
  {
  }

  lemma SeekStepRefs(m: Memory, t: Tid, p: SeekPoint, fail: bool, c: Ref)
    requires SeekSafe(m, p)
    ensures var (m2, l2) := SeekStep(m, t, p, fail); NetRefs(m2, c) == NetRefs(m, c) + Held(l2, c) - Held(Seeking(p), c)
  {
  }

  lemma TakeStepRefs(m: Memory, t: Tid, p: TakePoint, c: Ref)
    requires Good(m) && TakeSafe(m, p) && TakeKnows(m, t, p)
    ensures var (m2, l2) := TakeStep(m, p); NetRefs(m2, c) == NetRefs(m, c) + Held(l2, c) - Held(Taking(p), c)
  {
  }

  /** A chunk's ref_count, net of lost claims, changes by what the thread takes or gives back. */
  lemma ActRefs(m: Memory, t: Tid, l: Local, fail: bool, c: Ref)
    requires Good(m) && Knows(m, t, l)
    ensures NetRefs(Act(m, t, l, fail).0, c) == NetRefs(m, c) + Held(Act(m, t, l, fail).1, c) - Held(l, c)
  {
    match l
    case Pushing(p) => PushStepFits(m, t, p, fail); PushStepRefs(m, t, p, fail, c);
    case Seeking(p) => SeekStepFits(m, t, p, fail); SeekStepRefs(m, t, p, fail, c);
    case Taking(p) => TakeStepFits(m, t, p); TakeStepRefs(m, t, p, c);
    case _ =>
  }

  lemma {:induction false} RefCountsAfter(s: State, t: Tid, fail: bool)
    requires Inv(s) && t in s.threads
    ensures RefCounts(Step(s, Run(t, fail)))
  {
    forall c
      ensures NetRefs(Step(s, Run(t, fail)).mem, c) == |Holders(Step(s, Run(t, fail)).threads, c)|
    {
      ActRefs(s.mem, t, s.threads[t], fail, c);
      HoldersAfter(s.threads, t, Act(s.mem, t, s.threads[t], fail).1, c);
    }
  }

  /** Only a link store leaves the linking point, and it links. */
  lemma ActLinks(m: Memory, t: Tid, l: Local, fail: bool)
    requires Good(m) && Knows(m, t, l)
    ensures var (m2, l2) := Act(m, t, l, fail);
      && |m2.heap| <= |m.heap| + 1
      && (|m2.heap| > |m.heap| ==> m2.hist.publishedBy == m.hist.publishedBy + [t] && AtLink(l2, |m.heap| - 1))
      && (forall c :: AtLink(l, c) ==> Linked(m2, c))
  {
    match l
    case Pushing(p) => PushStepFits(m, t, p, fail);
    case _ =>
  }

  lemma LinksAfter(s: State, t: Tid, fail: bool)
    requires Inv(s) && t in s.threads
    requires Fits(s.mem, t, Step(s, Run(t, fail)).mem)
    ensures Links(Step(s, Run(t, fail)))
  {
    ActLinks(s.mem, t, s.threads[t], fail);
  }

  lemma RunKeepsInv(s: State, t: Tid, fail: bool)
    requires Inv(s) && t in s.threads
    ensures Inv(Step(s, Run(t, fail)))
  {
    var s2 := Step(s, Run(t, fail));
    ActSound(s.mem, t, s.threads[t], fail);
    LinksAfter(s, t, fail);
    RefCountsAfter(s, t, fail);
    forall u | u in s2.threads
      ensures Knows(s2.mem, u, s2.threads[u])
    {
      if u != t {
        KnowledgeIsStable(s.mem, s2.mem, t, u, s.threads[u]);
      }
    }
  }

  lemma InvokeKeepsInv(s: State, t: Tid, l: Local)
    requires Inv(s) && IsIdle(s, t) && ((l.Pushing? && l.push.PushLoadChunk?) || l == Seeking(PopLoadChunk))
    ensures Inv(s.(threads := s.threads[t := l]))
  {
    forall c
      ensures NetRefs(s.mem, c) == |Holders(s.threads[t := l], c)|
    {
      HoldersAfter(s.threads, t, l, c);
    }
  }

  lemma StepKeepsInv(s: State, a: Action)
    requires Inv(s)
    ensures Inv(Step(s, a))
  {
    match a
    case InvokePush(t, v) => if IsIdle(s, t) { InvokeKeepsInv(s, t, Pushing(PushLoadChunk(v))); }
    case InvokePop(t) => if IsIdle(s, t) { InvokeKeepsInv(s, t, Seeking(PopLoadChunk)); }
    case Run(t, fail) => if t in s.threads { RunKeepsInv(s, t, fail); }
  }

  lemma {:induction false} InvHolds(acts: seq<Action>)
    ensures Inv(Exec(acts))
  {
    if acts == [] {
      forall c
        ensures ReadsDone({}, c) == {} && NetRefs(Init().mem, c) == 0 && Holders(Init().threads, c) == {}
      {
      }
    } else {
      InvHolds(acts[..|acts| - 1]);
      StepKeepsInv(Exec(acts[..|acts| - 1]), acts[|acts| - 1]);
    }
  }
}
