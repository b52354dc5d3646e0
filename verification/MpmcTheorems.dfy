/** What holds of the queue in every state that any schedule of any number of threads reaches. */
module MpmcTheorems {
  import opened Options
  import opened MpmcQueue
  import opened MpmcInvariant

  /** The index a thread has claimed and not finished with, as a producer. */
  function PushIndex(l: Local): Option<nat> {
    if l.Pushing? && !l.push.PushLoadChunk? && !l.push.PushLoadIndex? && !l.push.PushClaim? && !l.push.PushReturn?
    then Some(l.push.idx) else None
  }

  /** The index a thread has claimed and not finished with, as a consumer. */
  function PopIndex(l: Local): Option<nat> {
    if l.Taking? && !l.take.PopRelease? && !l.take.PopReturn? then Some(l.take.idx) else None
  }

  /** No run makes a thread touch a chunk that does not exist or a slot outside its chunk: even from a
      stale chunk pointer, the offset of every slot access is in [0, CHUNK_SIZE). */
  lemma EveryAccessIsSafe(acts: seq<Action>, t: Tid)
    requires t in Exec(acts).threads
    ensures var s := Exec(acts);
      match s.threads[t]
      case Idle => true
      case Fault => false
      case Pushing(p) =>
        && PushSafe(s.mem, p)
        && (p.PushWrite? || p.PushReady? ==> 0 <= p.idx - s.mem.heap[p.chunk].begin < CHUNK_SIZE)
      case Seeking(p) => SeekSafe(s.mem, p)
      case Taking(p) =>
        && TakeSafe(s.mem, p)
        && (p.PopWait? || p.PopTake? ==> 0 <= p.idx - s.mem.heap[p.chunk].begin < CHUNK_SIZE)
  {
    InvHolds(acts);
    var s := Exec(acts);
    match s.threads[t]
    case Pushing(p) => PushStepFits(s.mem, t, p, false);
    case Seeking(p) => SeekStepFits(s.mem, t, p, false);
    case Taking(p) => TakeStepFits(s.mem, t, p);
    case _ =>
  }

  /** The chunks lie back to back and are linked in order; a missing link is about to be stored. */
  lemma ChunksFormOneChain(acts: seq<Action>, c: Ref)
    requires c < |Exec(acts).mem.heap|
    ensures var s := Exec(acts);
      && s.mem.heap[c].begin == c * CHUNK_SIZE
      && s.mem.tailChunk == |s.mem.heap| - 1
      && (s.mem.heap[c].next.Some? ==> s.mem.heap[c].next == Some(c + 1) && c + 1 < |s.mem.heap|)
      && (c + 1 < |s.mem.heap| && s.mem.heap[c].next.None? ==>
            exists t :: t in s.threads && AtLink(s.threads[t], c))
  {
    InvHolds(acts);
  }

  lemma LinkIsKept(s: State, a: Action, c: Ref)
    requires Inv(s) && Linked(s.mem, c)
    ensures Linked(Step(s, a).mem, c) && Step(s, a).mem.heap[c].next == s.mem.heap[c].next
  {
    if a.Run? && a.t in s.threads {
      ActSound(s.mem, a.t, s.threads[a.t], a.fail);
    }
  }

  /** A chunk's link never changes once it is there: no continuation of a run changes it. */
  lemma {:induction false} LinksAreFinal(acts: seq<Action>, more: seq<Action>, c: Ref)
    requires Linked(Exec(acts).mem, c)
    ensures Linked(Exec(acts + more).mem, c) && Exec(acts + more).mem.heap[c].next == Exec(acts).mem.heap[c].next
  {
    if more == [] {
      assert acts + more == acts;
    } else {
      var front, a := more[..|more| - 1], more[|more| - 1];
      LinksAreFinal(acts, front, c);
      InvHolds(acts + front);
      LinkIsKept(Exec(acts + front), a, c);
      ExecSnoc(acts + front, a);
      assert acts + more == acts + front + [a];
    }
  }

  /** A chunk's link is stored at most once: a thread about to store it always finds none, so after a
      store no thread ever stands there again. */
  lemma LinkStoredOnce(acts: seq<Action>, more: seq<Action>, t: Tid, c: Ref)
    requires t in Exec(acts + more).threads && AtLink(Exec(acts + more).threads[t], c)
    ensures c < |Exec(acts + more).mem.heap| && Exec(acts + more).mem.heap[c].next.None? && !Linked(Exec(acts).mem, c)
  {
    InvHolds(acts + more);
    assert Knows(Exec(acts + more).mem, t, Exec(acts + more).threads[t]);
    if Linked(Exec(acts).mem, c) {
      LinksAreFinal(acts, more, c);
    }
  }

  lemma ClaimsAreKept(s: State, a: Action)
    requires Inv(s)
    ensures s.mem.hist.pushedBy <= Step(s, a).mem.hist.pushedBy && s.mem.hist.poppedBy <= Step(s, a).mem.hist.poppedBy
  {
    if a.Run? && a.t in s.threads {
      ActSound(s.mem, a.t, s.threads[a.t], a.fail);
    }
  }

  /** Who claimed an index never changes. */
  lemma {:induction false} ClaimsAreFinal(acts: seq<Action>, more: seq<Action>)
    ensures Exec(acts).mem.hist.pushedBy <= Exec(acts + more).mem.hist.pushedBy
    ensures Exec(acts).mem.hist.poppedBy <= Exec(acts + more).mem.hist.poppedBy
  {
    if more == [] {
      assert acts + more == acts;
    } else {
      var front, a := more[..|more| - 1], more[|more| - 1];
      ClaimsAreFinal(acts, front);
      InvHolds(acts + front);
      ClaimsAreKept(Exec(acts + front), a);
      ExecSnoc(acts + front, a);
      assert acts + more == acts + front + [a];
    }
  }

  /** Every index is claimed by one producer, and by at most one consumer, over the whole run: a thread
      that owns an index now and one that owns it at any later time are the same. */
  lemma ClaimsAreExclusive(acts: seq<Action>, more: seq<Action>, t: Tid, u: Tid)
    requires t in Exec(acts).threads && u in Exec(acts + more).threads && t != u
    ensures var l, k := Exec(acts).threads[t], Exec(acts + more).threads[u];
      && (PushIndex(l).Some? ==> PushIndex(l) != PushIndex(k))
      && (PopIndex(l).Some? ==> PopIndex(l) != PopIndex(k))
  {
    InvHolds(acts);
    InvHolds(acts + more);
    ClaimsAreFinal(acts, more);
    OwnerIsRecorded(Exec(acts), t);
    OwnerIsRecorded(Exec(acts + more), u);
  }

  lemma OwnerIsRecorded(s: State, t: Tid)
    requires Inv(s) && t in s.threads
    ensures var i := PushIndex(s.threads[t]); i.Some? ==>
      i.value < |s.mem.hist.pushedBy| && s.mem.hist.pushedBy[i.value] == t
    ensures var i := PopIndex(s.threads[t]); i.Some? ==>
      i.value < |s.mem.hist.poppedBy| && s.mem.hist.poppedBy[i.value] == t
  {
    assert Knows(s.mem, t, s.threads[t]);
  }

  /** head_index_ never passes tail_index_, and neither leaves the values pushed so far. */
  lemma HeadNeverPassesTail(acts: seq<Action>)
    ensures var m := Exec(acts).mem; m.headIndex <= m.tailIndex == |m.hist.log|
  {
    InvHolds(acts);
  }

  /** A chunk that head_chunk_ has left was read out completely: none of its indices is unclaimed or
      unread. */
  lemma UnlinkedChunksAreDrained(acts: seq<Action>, c: Ref, i: nat)
    requires c < Exec(acts).mem.headChunk && c * CHUNK_SIZE <= i < (c + 1) * CHUNK_SIZE
    ensures var m := Exec(acts).mem;
      i < m.headIndex <= m.tailIndex && i in m.hist.moved && c < |m.heap| && m.heap[c].readCount == CHUNK_SIZE
  {
    InvHolds(acts);
    var m := Exec(acts).mem;
    assert Drained(m.hist.done, c);
    DrainedCount(m.hist.done, c, (c + 1) * CHUNK_SIZE);
  }

  lemma {:induction false} DrainedCount(done: set<nat>, c: Ref, hi: nat)
    requires Drained(done, c) && c * CHUNK_SIZE <= hi <= (c + 1) * CHUNK_SIZE
    ensures |set i | i in done && c * CHUNK_SIZE <= i < hi| == hi - c * CHUNK_SIZE
    decreases hi
  {
    var all := set i | i in done && c * CHUNK_SIZE <= i < hi;
    if hi == c * CHUNK_SIZE {
      assert all == {};
    } else {
      DrainedCount(done, c, hi - 1);
      assert all == (set i | i in done && c * CHUNK_SIZE <= i < hi - 1) + {hi - 1};
    }
  }

  /** read_count counts completed reads; ref_count counts the consumers that hold the chunk and the
      claims lost while holding it, so it is never negative, nor zero while the chunk is held. */
  lemma CountsAreExact(acts: seq<Action>, c: Ref)
    requires c < |Exec(acts).mem.heap|
    ensures var s := Exec(acts);
      && s.mem.heap[c].readCount == |ReadsDone(s.mem.hist.done, c)|
      && s.mem.heap[c].refCount == |Holders(s.threads, c)| + s.mem.hist.lost[c] >= 0
      && forall t :: t in s.threads && Holds(s.threads[t], c) ==> s.mem.heap[c].refCount > 0
  {
    InvHolds(acts);
    var s := Exec(acts);
    assert NetRefs(s.mem, c) == |Holders(s.threads, c)|;
    forall t | t in s.threads && Holds(s.threads[t], c)
      ensures s.mem.heap[c].refCount > 0
    {
      assert t in Holders(s.threads, c);
    }
  }

  /** The consumer has seen ref_count == 0 on chunk `c` and may still unlink it. */
  predicate PassedRefTest(l: Local, c: Ref) {
    l.Seeking? && (l.seek.PopCheckNext? || l.seek.PopLoadNext? || l.seek.PopUnlink?) && l.seek.head == c
  }

  ghost predicate Pinned(s: State, c: Ref) {
    && c in s.mem.hist.lost && s.mem.headChunk <= c
    && forall t :: t in s.threads ==> !PassedRefTest(s.threads[t], c)
  }

  /** A claim lost on a chunk pins it: unless a consumer has already passed the reference test,
      no continuation of the run ever moves head_chunk_ past the chunk, so it is never reclaimed. */
  lemma {:induction false} LostClaimPinsChunk(acts: seq<Action>, more: seq<Action>, c: Ref)
    requires Pinned(Exec(acts), c)
    ensures Pinned(Exec(acts + more), c)
  {
    if more == [] {
      assert acts + more == acts;
    } else {
      var front, a := more[..|more| - 1], more[|more| - 1];
      LostClaimPinsChunk(acts, front, c);
      InvHolds(acts + front);
      PinnedStep(Exec(acts + front), a, c);
      ExecSnoc(acts + front, a);
      assert acts + more == acts + front + [a];
    }
  }

  lemma ExecSnoc(acts: seq<Action>, a: Action)
    ensures Exec(acts + [a]) == Step(Exec(acts), a)
  {
    assert (acts + [a])[..|acts + [a]| - 1] == acts;
  }

  lemma PinnedAct(m: Memory, t: Tid, l: Local, fail: bool, c: Ref)
    requires Knows(m, t, l) && c in m.hist.lost && m.headChunk <= c && !PassedRefTest(l, c) && NetRefs(m, c) >= 0
    ensures var (m2, l2) := Act(m, t, l, fail); c in m2.hist.lost && m2.headChunk <= c && !PassedRefTest(l2, c)
  {
    assert m.hist.lost[c] > 0;
  }

  lemma PinnedStep(s: State, a: Action, c: Ref)
    requires Inv(s) && Pinned(s, c)
    ensures Pinned(Step(s, a), c)
  {
    if a.Run? && a.t in s.threads {
      assert NetRefs(s.mem, c) == |Holders(s.threads, c)|;
      PinnedAct(s.mem, a.t, s.threads[a.t], a.fail, c);
    }
  }
}
