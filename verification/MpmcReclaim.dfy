/** When a chunk that was read out completely leaves the queue, and when it never does. */
module MpmcReclaim {
  import opened Options
  import opened MpmcQueue
  import opened MpmcInvariant
  import opened MpmcTheorems

  /** The state after a schedule that starts at `s`. */
  function After(s: State, acts: seq<Action>): State {
    if acts == [] then s else Step(After(s, acts[..|acts| - 1]), acts[|acts| - 1])
  }

  ghost predicate Reaches(s: State, s2: State) { exists acts :: After(s, acts) == s2 }

  lemma {:induction false} ExecAfter(acts: seq<Action>, more: seq<Action>)
    ensures Exec(acts + more) == After(Exec(acts), more)
  {
    if more == [] {
      assert acts + more == acts;
    } else {
      ExecAfter(acts, more[..|more| - 1]);
      assert (acts + more)[..|acts + more| - 1] == acts + more[..|more| - 1];
    }
  }

  lemma ReachesSelf(s: State)
    ensures Reaches(s, s)
  {
    assert After(s, []) == s;
  }

  lemma ReachesStep(s: State, s2: State, a: Action)
    requires Reaches(s, s2)
    ensures Reaches(s, Step(s2, a))
  {
    var acts :| After(s, acts) == s2;
    assert (acts + [a])[..|acts + [a]| - 1] == acts;
    assert After(s, acts + [a]) == Step(s2, a);
  }

  /** One more step of a run that keeps the invariant. */
  lemma Go(s: State, s2: State, a: Action) returns (s3: State)
    requires Inv(s2) && Reaches(s, s2)
    ensures s3 == Step(s2, a) && Inv(s3) && Reaches(s, s3)
  {
    s3 := Step(s2, a);
    StepKeepsInv(s2, a);
    ReachesStep(s, s2, a);
  }

  // --- the consumer that unlinks ---

  /** A consumer past the reference test unlinks the head chunk once it is linked. */
  lemma PassedUnlinks(s0: State, s: State, t: Tid, c: Ref) returns (s2: State)
    requires Inv(s) && Reaches(s0, s) && s.mem.headChunk == c && Linked(s.mem, c)
    requires t in s.threads && PassedRefTest(s.threads[t], c)
    ensures Reaches(s0, s2) && s2.mem.headChunk > c
    decreases if s.threads[t].seek.PopCheckNext? then 2 else if s.threads[t].seek.PopLoadNext? then 1 else 0
  {
    assert Knows(s.mem, t, s.threads[t]);
    s2 := Go(s0, s, Run(t, false));
    if !s.threads[t].seek.PopUnlink? {
      s2 := PassedUnlinks(s0, s2, t, c);
    }
  }

  /** The head chunk can be unlinked by a consumer that comes now. */
  ghost predicate Unlinkable(m: Memory, c: Ref) {
    && m.headChunk == c && Linked(m, c) && m.heap[c].readCount == CHUNK_SIZE && m.heap[c].refCount == 0
    && m.headIndex != m.tailIndex
  }

  /** The consumer has loaded the head chunk and is on its way to the reference test. */
  predicate OnTheWay(m: Memory, l: Local, c: Ref) {
    match l
    case Seeking(PopLoadChunk) => true
    case Seeking(PopLoadHead(h)) => h == c
    case Seeking(PopLoadTail(h, i)) => h == c && i == m.headIndex
    case Seeking(PopReadCount(h, _)) => h == c
    case Seeking(PopRefCount(h, _)) => h == c
    case _ => false
  }

  function StepsToTest(l: Local): nat {
    match l
    case Seeking(PopLoadChunk) => 5
    case Seeking(PopLoadHead(_)) => 4
    case Seeking(PopLoadTail(_, _)) => 3
    case Seeking(PopReadCount(_, _)) => 2
    case _ => 1
  }

  lemma ConsumerUnlinks(s0: State, s: State, t: Tid, c: Ref) returns (s2: State)
    requires Inv(s) && Reaches(s0, s) && Unlinkable(s.mem, c)
    requires t in s.threads && OnTheWay(s.mem, s.threads[t], c)
    ensures Reaches(s0, s2) && s2.mem.headChunk > c
    decreases StepsToTest(s.threads[t])
  {
    s2 := Go(s0, s, Run(t, false));
    assert s2.mem == s.mem;
    if s.threads[t].seek.PopRefCount? {
      s2 := PassedUnlinks(s0, s2, t, c);
    } else {
      s2 := ConsumerUnlinks(s0, s2, t, c);
    }
  }

  // --- producers that make it possible ---

  lemma FreshTid(threads: map<Tid, Local>) returns (u: Tid)
    ensures u !in threads
  {
    u := 0;
    var rest := threads.Keys;
    while rest != {}
      invariant forall t :: t in threads ==> t in rest || t < u
      decreases |rest|
    {
      var t :| t in rest;
      rest := rest - {t};
      if t >= u { u := t + 1; }
    }
  }

  /** A producer comes and loads the tail. */
  lemma ProducerComes(s0: State, s: State, u: Tid, v: Value) returns (s2: State)
    requires Inv(s) && Reaches(s0, s) && u !in s.threads
    ensures Inv(s2) && Reaches(s0, s2)
    ensures s2 == State(s.mem, s.threads[u := Pushing(PushLoadIndex(v, s.mem.tailChunk))])
  {
    var a := Go(s0, s, InvokePush(u, v));
    s2 := Go(s0, a, Run(u, false));
    assert s2.threads == s.threads[u := Pushing(PushLoadIndex(v, s.mem.tailChunk))];
  }

  /** A producer comes and claims an index. */
  lemma ProducerClaims(s0: State, s: State, u: Tid, v: Value) returns (s2: State)
    requires Inv(s) && Reaches(s0, s) && u !in s.threads
    ensures Inv(s2) && Reaches(s0, s2)
    ensures s2 == State(ClaimTail(s.mem, u, v),
                        s.threads[u := Pushing(PushBranch(v, s.mem.tailChunk, s.mem.tailIndex))])
  {
    var a := ProducerComes(s0, s, u, v);
    var b := Go(s0, a, Run(u, false));
    s2 := Go(s0, b, Run(u, false));
    assert s2.threads == s.threads[u := Pushing(PushBranch(v, s.mem.tailChunk, s.mem.tailIndex))];
  }

  /** A producer whose index lies behind the last chunk publishes the next one. */
  lemma ProducerPublishes(s0: State, s: State, u: Tid, v: Value, c: Ref, i: nat) returns (s2: State)
    requires Inv(s) && Reaches(s0, s) && s.mem.tailChunk == c && (c + 1) * CHUNK_SIZE <= i
    requires u in s.threads && s.threads[u] == Pushing(PushBranch(v, c, i))
    ensures Inv(s2) && Reaches(s0, s2)
    ensures s2 == State(Publish(s.mem, u, NewChunk((c + 1) * CHUNK_SIZE)),
                        s.threads[u := Pushing(PushLink(v, c, i, |s.mem.heap|))])
  {
    var a := Go(s0, s, Run(u, false));
    s2 := Go(s0, a, Run(u, false));
    assert s2.threads == s.threads[u := Pushing(PushLink(v, c, i, |s.mem.heap|))];
  }

  /** And it links the chunk. */
  lemma ProducerLinks(s0: State, s: State, u: Tid, v: Value, c: Ref, i: nat) returns (s2: State)
    requires Inv(s) && Reaches(s0, s) && s.mem.tailChunk == c && (c + 1) * CHUNK_SIZE <= i
    requires u in s.threads && s.threads[u] == Pushing(PushBranch(v, c, i))
    ensures Inv(s2) && Reaches(s0, s2) && Linked(s2.mem, c) && Quiet(s, s2, c)
  {
    var a := ProducerPublishes(s0, s, u, v, c, i);
    s2 := Go(s0, a, Run(u, false));
  }

  /** What a producer leaves alone: the head, the counts of chunk `c`, and the consumers. */
  ghost predicate Quiet(s: State, s2: State, c: Ref) {
    && s2.mem.headChunk == s.mem.headChunk && s2.mem.headIndex == s.mem.headIndex && s.mem.tailIndex <= s2.mem.tailIndex
    && c < |s.mem.heap| && c < |s2.mem.heap|
    && s2.mem.heap[c].readCount == s.mem.heap[c].readCount && s2.mem.heap[c].refCount == s.mem.heap[c].refCount
    && (forall t :: t in s.threads && s.threads[t].Seeking? ==> t in s2.threads && s2.threads[t] == s.threads[t])
  }

  /** A chunk that was read out completely can always be linked. */
  lemma GetLinked(s: State, c: Ref) returns (s2: State)
    requires Inv(s) && s.mem.headChunk == c && Drained(s.mem.hist.done, c)
    ensures Inv(s2) && Reaches(s, s2) && Linked(s2.mem, c) && Quiet(s, s2, c)
  {
    ReachesSelf(s);
    if Linked(s.mem, c) {
      s2 := s;
    } else if c + 1 < |s.mem.heap| {
      var t := s.mem.hist.publishedBy[c + 1];
      assert Knows(s.mem, t, s.threads[t]);
      s2 := Go(s, s, Run(t, false));
    } else {
      assert (c + 1) * CHUNK_SIZE - 1 in s.mem.hist.done;
      var u := FreshTid(s.threads);
      var v, i := s.mem.hist.log[0], s.mem.tailIndex;
      var a := ProducerClaims(s, s, u, v);
      s2 := ProducerLinks(s, a, u, v, c, i);
    }
  }

  /** With no consumer holding the head chunk, no claim lost on it and all its values read, it can go. */
  lemma DrainedChunkCanGo(s: State, c: Ref) returns (s2: State)
    requires Inv(s) && s.mem.headChunk == c && s.mem.heap[c].readCount == CHUNK_SIZE && s.mem.heap[c].refCount == 0
    ensures Reaches(s, s2) && s2.mem.headChunk > c
  {
    FullCountDrains(s.mem.hist.done, c);
    var a := GetLinked(s, c);
    if a.mem.headIndex == a.mem.tailIndex {
      assert (c + 1) * CHUNK_SIZE - 1 in s.mem.hist.done;
      var p := FreshTid(a.threads);
      a := ProducerClaims(s, a, p, a.mem.hist.log[0]);
    }
    var u := FreshTid(a.threads);
    a := Go(s, a, InvokePop(u));
    s2 := ConsumerUnlinks(s, a, u, c);
  }

  /** A consumer is past the reference test of chunk `c`. */
  ghost predicate SomePassed(s: State, c: Ref) { exists t :: t in s.threads && PassedRefTest(s.threads[t], c) }

  /** The head chunk, read out completely and held by no consumer, leaves the queue in some continuation
      of the run if and only if no claim was lost on it or a consumer is already past the reference test. */
  lemma UnlinkedIffNoClaimLost(acts: seq<Action>, c: Ref)
    requires c == Exec(acts).mem.headChunk < |Exec(acts).mem.heap| && Exec(acts).mem.heap[c].readCount == CHUNK_SIZE
    requires forall t :: t in Exec(acts).threads ==> !Holds(Exec(acts).threads[t], c)
    ensures (exists more :: Exec(acts + more).mem.headChunk > c) <==>
            (c !in Exec(acts).mem.hist.lost || SomePassed(Exec(acts), c))
  {
    InvHolds(acts);
    var s := Exec(acts);
    if SomePassed(s, c) {
      var t :| t in s.threads && PassedRefTest(s.threads[t], c);
      assert Knows(s.mem, t, s.threads[t]);
      var a := GetLinked(s, c);
      var s2 := PassedUnlinks(s, a, t, c);
      Continues(acts, s2);
    } else if c !in s.mem.hist.lost {
      assert NetRefs(s.mem, c) == |Holders(s.threads, c)| && Holders(s.threads, c) == {};
      var s2 := DrainedChunkCanGo(s, c);
      Continues(acts, s2);
    } else {
      forall more ensures Exec(acts + more).mem.headChunk <= c { LostClaimPinsChunk(acts, more, c); }
    }
  }

  lemma Continues(acts: seq<Action>, s2: State)
    requires Reaches(Exec(acts), s2)
    ensures exists more :: Exec(acts + more) == s2
  {
    var more :| After(Exec(acts), more) == s2;
    ExecAfter(acts, more);
  }

  // --- it does happen ---

  /** A producer claims an index, and a consumer takes a reference and loses its weak exchange. */
  function LosingRun(v: Value): seq<Action> {
    [InvokePush(0, v), Run(0, false), Run(0, false), Run(0, false), InvokePop(1), Run(1, false), Run(1, false),
     Run(1, false), Run(1, false), Run(1, false), Run(1, true)]
  }

  /** Where the producer stands after `k` actions of that run. */
  function Producer(v: Value, k: nat): Local {
    if k == 0 then Idle
    else if k == 1 then Pushing(PushLoadChunk(v))
    else if k == 2 then Pushing(PushLoadIndex(v, 0))
    else if k == 3 then Pushing(PushClaim(v, 0, 0))
    else Pushing(PushBranch(v, 0, 0))
  }

  /** Where the consumer stands after `k` more actions. */
  function Consumer(k: nat): Local {
    if k == 0 then Idle
    else if k == 1 then Seeking(PopLoadChunk)
    else if k == 2 then Seeking(PopLoadHead(0))
    else if k == 3 then Seeking(PopLoadTail(0, 0))
    else if k == 4 then Seeking(PopReadCount(0, 0))
    else if k == 5 then Seeking(PopAcquire(0, 0))
    else if k == 6 then Seeking(PopClaim(0, 0))
    else Seeking(PopLoadChunk)
  }

  /** One action of a thread that stands at `l`. */
  lemma ThreadMoves(s: State, t: Tid, fail: bool, m2: Memory, l2: Local)
    requires t in s.threads && Act(s.mem, t, s.threads[t], fail) == (m2, l2)
    ensures Step(s, Run(t, fail)) == State(m2, s.threads[t := l2])
  {
  }

  lemma PrefixOfRun(acts: seq<Action>, n: nat)
    requires n < |acts|
    ensures Exec(acts[..n + 1]) == Step(Exec(acts[..n]), acts[n])
  {
    assert acts[..n + 1][..n] == acts[..n];
  }

  lemma ProducerActs(m: Memory, v: Value, k: nat)
    requires 1 <= k <= 3 && m.tailChunk == 0 == m.tailIndex
    ensures Act(m, 0, Producer(v, k), false) == (if k < 3 then m else ClaimTail(m, 0, v), Producer(v, k + 1))
  {
  }

  lemma ConsumerActs(m: Memory, k: nat)
    requires 1 <= k <= 5 && m.headChunk == 0 == m.headIndex < m.tailIndex && |m.heap| > 0 && m.heap[0].readCount == 0
    ensures Act(m, 1, Consumer(k), false) == (if k < 5 then m else AddRef(m, 0, 1), Consumer(k + 1))
  {
  }

  lemma {:induction false} AfterThePush(v: Value, k: nat)
    requires 1 <= k <= 4
    ensures var m := Init().mem;
      Exec(LosingRun(v)[..k]) == State(if k < 4 then m else ClaimTail(m, 0, v), map[0 := Producer(v, k)])
  {
    PrefixOfRun(LosingRun(v), k - 1);
    if k == 1 {
      assert Exec(LosingRun(v)[..0]) == Init();
    } else {
      AfterThePush(v, k - 1);
      ProducerActs(Init().mem, v, k - 1);
    }
  }

  /** The state after the push and `k` actions of the pop. */
  function Stage(v: Value, k: nat): State {
    var m := ClaimTail(Init().mem, 0, v);
    State(if k < 6 then m else AddRef(m, 0, 1), map[0 := Producer(v, 4), 1 := Consumer(k)])
  }

  lemma NextStage(v: Value, k: nat)
    requires 1 <= k <= 5
    ensures Step(Stage(v, k), Run(1, false)) == Stage(v, k + 1)
  {
    var m := ClaimTail(Init().mem, 0, v);
    ConsumerActs(m, k);
    ThreadMoves(Stage(v, k), 1, false, Stage(v, k + 1).mem, Consumer(k + 1));
    assert Stage(v, k).threads[1 := Consumer(k + 1)] == Stage(v, k + 1).threads;
  }

  lemma ConsumerTurn(v: Value, k: nat)
    requires 2 <= k <= 6
    ensures LosingRun(v)[3 + k] == Run(1, false)
  {
  }

  lemma PopBegins(v: Value)
    ensures Exec(LosingRun(v)[..5]) == Stage(v, 1)
  {
    AfterThePush(v, 4);
    PrefixOfRun(LosingRun(v), 4);
    assert LosingRun(v)[4] == InvokePop(1);
    assert map[0 := Producer(v, 4)][1 := Consumer(1)] == Stage(v, 1).threads;
  }

  /** The state after a prefix of the run, and one action more. */
  lemma OneMore(v: Value, n: nat, a: Action, s: State)
    requires n < 11 && Exec(LosingRun(v)[..n]) == s && LosingRun(v)[n] == a
    ensures Exec(LosingRun(v)[..n + 1]) == Step(s, a)
  {
    PrefixOfRun(LosingRun(v), n);
  }

  lemma {:induction false} AfterThePop(v: Value, k: nat)
    requires 1 <= k <= 6
    ensures Exec(LosingRun(v)[..4 + k]) == Stage(v, k)
  {
    if k == 1 {
      PopBegins(v);
    } else {
      AfterThePop(v, k - 1);
      ConsumerTurn(v, k);
      OneMore(v, 3 + k, Run(1, false), Stage(v, k - 1));
      NextStage(v, k - 1);
    }
  }

  /** After it the first chunk stays in the queue for ever, whatever is read. */
  lemma LostClaimHappens(v: Value)
    ensures Pinned(Exec(LosingRun(v)), 0)
  {
    var acts, m := LosingRun(v), AddRef(ClaimTail(Init().mem, 0, v), 0, 1);
    AfterThePop(v, 6);
    PrefixOfRun(acts, 10);
    assert acts[..11] == acts;
    ThreadMoves(Stage(v, 6), 1, true, LoseClaim(m, 0), Consumer(7));
  }
}
