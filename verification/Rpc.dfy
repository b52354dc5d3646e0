/** Requests and responses between one client channel and the server, over byte channels that are
    reliable and deliver in chunks of any size.

    Protobuf is an opaque codec. The two receive loops hand on the frames of what has arrived, one step
    per frame. A service is a function of method and request; it has no answer if the service or method
    is unknown or the request does not parse, and the server then closes the connection. */
module Rpc {
  import opened Options
  import opened BufferBlocks
  import opened InputBuffers
  import opened Framing

  const MAGIC_NUM: nat := 0x30F8CA9B
  const VERSION: int := 1

  datatype MessageType = Request | Response

  datatype Header = Header(magic: nat, version: int, kind: MessageType, id: nat, service: string, name: string)

  /** One use of the channel: what is called, and whom to give the response. */
  datatype Call = Call(service: string, name: string, body: seq<Byte>, session: nat)

  datatype World = World(
    encode: Header -> seq<Byte>,
    decode: seq<Byte> -> Option<Header>,
    serve: (string, string, seq<Byte>) -> Option<seq<Byte>>,
    serverGarbage: Garbage,
    clientGarbage: Garbage)

  /** Parsing inverts serializing. */
  ghost predicate Faithful(w: World) {
    forall h :: w.decode(w.encode(h)) == Some(h)
  }

  datatype Done = Done(id: nat, session: nat, response: seq<Byte>)

  datatype State = State(
    open: bool,                     // false once the server has closed the connection
    astray: bool,                   // true once the client has met a response without a session
    nextId: nat,                    // request_id_
    sessions: map<nat, nat>,        // id2session_
    up: seq<Byte>,                  // all bytes the client has written
    upSent: nat, upArrived: nat,    // how many have left its buffer, how many have reached the server
    served: nat,                    // request frames handled
    down: seq<Byte>,                // all bytes the server has written
    downSent: nat, downArrived: nat,
    handled: nat,                   // response frames handled
    done: seq<Done>,                // completed calls
    calls: seq<Call>)               // history: all calls

  datatype Action =
    | Issue(call: Call)
    | SendUp(n: nat)
    | ArriveUp(n: nat)
    | Serve
    | SendDown(n: nat)
    | ArriveDown(n: nat)
    | Handle

  function Init(): State { State(true, false, 0, map[], [], 0, 0, 0, [], 0, 0, 0, [], []) }

  function RequestFrame(w: World, id: nat, c: Call): Frame {
    Frame(w.encode(Header(MAGIC_NUM, VERSION, Request, id, c.service, c.name)), c.body)
  }

  function ResponseFrame(w: World, id: nat, body: seq<Byte>): Frame {
    Frame(w.encode(Header(MAGIC_NUM, VERSION, Response, id, "", "")), body)
  }

  /** The server handles one request frame. A response of INT32_MAX bytes or more is outside the model,
      which treats it like one that does not exist. */
  function ServeFrame(w: World, s: State, f: Frame): State {
    match w.decode(f.header)
    case None => s.(open := false)
    case Some(h) =>
      if h.magic != MAGIC_NUM || h.version != VERSION then s.(open := false)
      else
        match w.serve(h.service, h.name, f.body)
        case None => s.(open := false)
        case Some(body) =>
          var r := ResponseFrame(w, h.id, body);
          if !Sendable(r) then s.(open := false)
          else s.(served := s.served + 1, down := s.down + EncodeFrame(r))
  }

  /** The client handles one response frame. For a response without a session the loop goes on without
      taking the body from its buffer; what it reads from then on is not modelled. */
  function HandleFrame(w: World, s: State, f: Frame): State {
    match w.decode(f.header)
    case None => s.(open := false)
    case Some(h) =>
      if h.id !in s.sessions then s.(astray := true)
      else s.(handled := s.handled + 1, sessions := s.sessions - {h.id},
              done := s.done + [Done(h.id, s.sessions[h.id], f.body)])
  }

  /** The frames that the receive loop has handed on when `n` bytes of a stream have arrived. */
  function Heard(stream: seq<Byte>, n: nat, g: Garbage): seq<Frame>
    requires n <= |stream|
  {
    Receive(stream[..n], 0, AtHeaderLen, g).frames
  }

  function AtServer(w: World, s: State): seq<Frame>
    requires s.upArrived <= |s.up|
  {
    Heard(s.up, s.upArrived, w.serverGarbage)
  }

  function AtClient(w: World, s: State): seq<Frame>
    requires s.downArrived <= |s.down|
  {
    Heard(s.down, s.downArrived, w.clientGarbage)
  }

  predicate Ordered(s: State) {
    s.upArrived <= s.upSent <= |s.up| && s.downArrived <= s.downSent <= |s.down|
  }

  /** An action that is not enabled changes nothing, and so does every action after a close. */
  function Step(w: World, s: State, a: Action): State {
    if !s.open || s.astray || !Ordered(s) then s else
    match a
    case Issue(call) =>
      var f := RequestFrame(w, s.nextId, call);
      if !Sendable(f) then s
      else s.(nextId := s.nextId + 1, up := s.up + EncodeFrame(f),
              sessions := s.sessions[s.nextId := call.session], calls := s.calls + [call])
    case SendUp(n) => if s.upSent + n <= |s.up| then s.(upSent := s.upSent + n) else s
    case ArriveUp(n) => if s.upArrived + n <= s.upSent then s.(upArrived := s.upArrived + n) else s
    case Serve => if s.served < |AtServer(w, s)| then ServeFrame(w, s, AtServer(w, s)[s.served]) else s
    case SendDown(n) => if s.downSent + n <= |s.down| then s.(downSent := s.downSent + n) else s
    case ArriveDown(n) => if s.downArrived + n <= s.downSent then s.(downArrived := s.downArrived + n) else s
    case Handle => if s.handled < |AtClient(w, s)| then HandleFrame(w, s, AtClient(w, s)[s.handled]) else s
  }

  function Exec(w: World, acts: seq<Action>): State {
    if acts == [] then Init() else Step(w, Exec(w, acts[..|acts| - 1]), acts[|acts| - 1])
  }

  // --- the invariant ---

  /** The frames of the calls' requests, in order of their ids. */
  ghost function Requests(w: World, calls: seq<Call>): seq<Frame> {
    seq(|calls|, i requires 0 <= i < |calls| => RequestFrame(w, i, calls[i]))
  }

  /** The service has an answer to a call, and it fits in a frame. */
  predicate Answered(w: World, id: nat, c: Call) {
    && w.serve(c.service, c.name, c.body).Some?
    && Sendable(ResponseFrame(w, id, w.serve(c.service, c.name, c.body).value))
  }

  function Answer(w: World, c: Call): seq<Byte> {
    match w.serve(c.service, c.name, c.body)
    case Some(b) => b
    case None => []
  }

  /** The frames of the responses to the first `n` calls. */
  ghost function Responses(w: World, calls: seq<Call>, n: nat): seq<Frame> {
    var k := Min(n, |calls|);
    seq(k, i requires 0 <= i < k => ResponseFrame(w, i, Answer(w, calls[i])))
  }

  ghost predicate AllSendable(fs: seq<Frame>) { forall f :: f in fs ==> Sendable(f) }

  /** Both streams are the encodings of what was sent, and the answers are to the first requests. */
  ghost predicate Streams(w: World, s: State) {
    && s.served <= |s.calls|
    && (forall i :: 0 <= i < s.served ==> Answered(w, i, s.calls[i]))
    && AllSendable(Requests(w, s.calls)) && s.up == Encode(Requests(w, s.calls))
    && AllSendable(Responses(w, s.calls, s.served)) && s.down == Encode(Responses(w, s.calls, s.served))
  }

  /** The first calls are completed, each with its own session and answer, and the others have sessions. */
  ghost predicate Matched(w: World, s: State) {
    && s.handled <= |s.calls| == s.nextId
    && s.sessions == (map i: nat | s.handled <= i < s.nextId :: s.calls[i].session)
    && |s.done| == s.handled
    && (forall i :: 0 <= i < s.handled ==> s.done[i] == Done(i, s.calls[i].session, Answer(w, s.calls[i])))
  }

  /** Each loop has handled only what has arrived. */
  ghost predicate Causal(w: World, s: State) {
    && Ordered(s) && s.handled <= s.served
    && s.served <= |AtServer(w, s)| && s.handled <= |AtClient(w, s)|
  }

  ghost predicate Inv(w: World, s: State) { !s.astray && Streams(w, s) && Matched(w, s) && Causal(w, s) }

  /** No length word of either stream lies across two blocks of its receiver's buffer. */
  ghost predicate WellAligned(w: World, s: State) {
    Aligned(0, Requests(w, s.calls)) && Aligned(0, Responses(w, s.calls, s.served))
  }

  // --- the steps keep it ---

  lemma MoreHeard(stream: seq<Byte>, m: nat, n: nat, g: Garbage)
    requires m <= n <= |stream|
    ensures |Heard(stream, m, g)| <= |Heard(stream, n, g)|
  {
    assert stream[..n] == stream[..m] + stream[m..n];
    ReceiveInParts(stream[..m], stream[m..n], 0, AtHeaderLen, g);
  }

  lemma HeardBefore(stream: seq<Byte>, more: seq<Byte>, n: nat, g: Garbage)
    requires n <= |stream|
    ensures Heard(stream + more, n, g) == Heard(stream, n, g)
  {
    assert (stream + more)[..n] == stream[..n];
  }

  lemma HeardAll(stream: seq<Byte>, g: Garbage)
    ensures Heard(stream, |stream|, g) == Receive(stream, 0, AtHeaderLen, g).frames
  {
    assert stream[..|stream|] == stream;
  }

  /** Of a stream of aligned frames, the first are heard, and all when all bytes have arrived. */
  lemma HeardIsSent(fs: seq<Frame>, n: nat, g: Garbage)
    requires AllSendable(fs) && Aligned(0, fs) && n <= |Encode(fs)|
    ensures Heard(Encode(fs), n, g) <= fs && (n == |Encode(fs)| ==> Heard(Encode(fs), n, g) == fs)
  {
    PrefixGivesPrefix(fs, Encode(fs)[..n], g);
    HeardAll(Encode(fs), g);
  }

  /** A frame is heard exactly when its last byte has arrived. */
  lemma HeardWithin(fs: seq<Frame>, n: nat, i: nat, g: Garbage)
    requires AllSendable(fs) && Aligned(0, fs) && n <= |Encode(fs)| && i < |fs|
    ensures i < |Heard(Encode(fs), n, g)| <==> Size(fs[..i + 1]) <= n
  {
    FramesWithin(fs, n, i + 1, g);
  }

  /** Adding a frame to a stream. */
  lemma EncodeSnoc(fs: seq<Frame>, f: Frame)
    requires AllSendable(fs) && Sendable(f)
    ensures AllSendable(fs + [f]) && Encode(fs + [f]) == Encode(fs) + EncodeFrame(f)
  {
    EncodeConcat(fs, [f]);
    assert Encode([f]) == EncodeFrame(f) + Encode([]);
  }

  lemma NewRequest(w: World, calls: seq<Call>, c: Call, n: nat)
    requires n <= |calls|
    ensures Requests(w, calls + [c]) == Requests(w, calls) + [RequestFrame(w, |calls|, c)]
    ensures Responses(w, calls + [c], n) == Responses(w, calls, n)
  {
  }

  lemma NewResponse(w: World, calls: seq<Call>, n: nat)
    requires n < |calls|
    ensures Responses(w, calls, n + 1) == Responses(w, calls, n) + [ResponseFrame(w, n, Answer(w, calls[n]))]
  {
  }

  lemma IssueKeepsStreams(w: World, s: State, c: Call)
    requires Streams(w, s) && Sendable(RequestFrame(w, |s.calls|, c))
    ensures Streams(w, s.(up := s.up + EncodeFrame(RequestFrame(w, |s.calls|, c)), calls := s.calls + [c]))
  {
    NewRequest(w, s.calls, c, s.served);
    EncodeSnoc(Requests(w, s.calls), RequestFrame(w, |s.calls|, c));
  }

  lemma IssueKeepsMatched(w: World, s: State, c: Call)
    requires Matched(w, s)
    ensures Matched(w, s.(nextId := s.nextId + 1, sessions := s.sessions[s.nextId := c.session],
                          calls := s.calls + [c]))
  {
  }

  lemma IssueKeepsInv(w: World, s: State, c: Call)
    requires Inv(w, s)
    ensures Inv(w, Step(w, s, Issue(c)))
  {
    var f := RequestFrame(w, s.nextId, c);
    if s.open && Sendable(f) {
      IssueKeepsStreams(w, s, c);
      IssueKeepsMatched(w, s, c);
      HeardBefore(s.up, EncodeFrame(f), s.upArrived, w.serverGarbage);
    }
  }

  lemma MoveKeepsInv(w: World, s: State, a: Action)
    requires Inv(w, s) && (a.SendUp? || a.ArriveUp? || a.SendDown? || a.ArriveDown?)
    ensures Inv(w, Step(w, s, a))
  {
    var t := Step(w, s, a);
    MoreHeard(s.up, s.upArrived, t.upArrived, w.serverGarbage);
    MoreHeard(s.down, s.downArrived, t.downArrived, w.clientGarbage);
  }

  /** The next request frame at the server is that of the first call without a response. */
  lemma NextRequest(w: World, s: State)
    requires Inv(w, s) && WellAligned(w, s) && s.served < |AtServer(w, s)|
    ensures s.served < |s.calls| && AtServer(w, s)[s.served] == RequestFrame(w, s.served, s.calls[s.served])
  {
    HeardIsSent(Requests(w, s.calls), s.upArrived, w.serverGarbage);
  }

  /** The next response frame at the client is the answer to the first call that is not completed. */
  lemma NextResponse(w: World, s: State)
    requires Inv(w, s) && WellAligned(w, s) && s.handled < |AtClient(w, s)|
    ensures s.handled < s.served
    ensures AtClient(w, s)[s.handled] == ResponseFrame(w, s.handled, Answer(w, s.calls[s.handled]))
  {
    HeardIsSent(Responses(w, s.calls, s.served), s.downArrived, w.clientGarbage);
  }

  /** What the receivers read from the headers of both kinds of frames. */
  lemma HeadersOnTheWire(w: World, id: nat, c: Call, body: seq<Byte>)
    requires Faithful(w)
    ensures w.decode(RequestFrame(w, id, c).header) == Some(Header(MAGIC_NUM, VERSION, Request, id, c.service, c.name))
    ensures w.decode(ResponseFrame(w, id, body).header) == Some(Header(MAGIC_NUM, VERSION, Response, id, "", ""))
  {
  }

  /** The server answers a request with the answer to it under its id, or closes if it has none. */
  lemma ServeAnswers(w: World, s: State, id: nat, c: Call)
    requires Faithful(w)
    ensures var f, t := RequestFrame(w, id, c), ServeFrame(w, s, RequestFrame(w, id, c));
      if Answered(w, id, c) then
        && Sendable(ResponseFrame(w, id, Answer(w, c)))
        && t == s.(served := s.served + 1, down := s.down + EncodeFrame(ResponseFrame(w, id, Answer(w, c))))
      else t == s.(open := false)
  {
    assert w.decode(RequestFrame(w, id, c).header).Some?;
  }

  /** A request that the server serves: its header parses and is acceptable, and the service has an answer that
      fits in a frame. */
  predicate Servable(w: World, f: Frame) {
    var h := w.decode(f.header);
    && h.Some? && h.value.magic == MAGIC_NUM && h.value.version == VERSION
    && var r := w.serve(h.value.service, h.value.name, f.body);
       r.Some? && Sendable(ResponseFrame(w, h.value.id, r.value))
  }

  /** Whatever arrives as a frame, the server stays open if and only if it is servable; otherwise the server writes
      nothing and counts nothing. */
  lemma ServerStaysOpenIff(w: World, s: State, f: Frame)
    requires s.open
    ensures ServeFrame(w, s, f).open <==> Servable(w, f)
    ensures !Servable(w, f) ==> ServeFrame(w, s, f) == s.(open := false)
  {
  }

  /** Whatever arrives as a frame, the client completes a call if and only if its header parses and its id has a
      session; it then completes exactly that one. */
  lemma ClientCompletesIff(w: World, s: State, f: Frame)
    requires s.open && !s.astray
    ensures var t, h := HandleFrame(w, s, f), w.decode(f.header);
      && (t.open <==> h.Some?)
      && (t.astray <==> h.Some? && h.value.id !in s.sessions)
      && (t.done != s.done <==> t.open && !t.astray)
    ensures var t, h := HandleFrame(w, s, f), w.decode(f.header); t.done != s.done ==>
      && t.done == s.done + [Done(h.value.id, s.sessions[h.value.id], f.body)]
      && t.sessions.Keys == s.sessions.Keys - {h.value.id}
  {
  }

  lemma AnswerKeepsStreams(w: World, s: State)
    requires Streams(w, s) && s.served < |s.calls| && Answered(w, s.served, s.calls[s.served])
    requires Sendable(ResponseFrame(w, s.served, Answer(w, s.calls[s.served])))
    ensures Streams(w, s.(served := s.served + 1,
              down := s.down + EncodeFrame(ResponseFrame(w, s.served, Answer(w, s.calls[s.served])))))
  {
    NewResponse(w, s.calls, s.served);
    EncodeSnoc(Responses(w, s.calls, s.served), ResponseFrame(w, s.served, Answer(w, s.calls[s.served])));
  }

  lemma AnswerKeepsInv(w: World, s: State, r: Frame)
    requires Inv(w, s) && s.served < |AtServer(w, s)| && s.served < |s.calls| && Sendable(r)
    requires r == ResponseFrame(w, s.served, Answer(w, s.calls[s.served])) && Answered(w, s.served, s.calls[s.served])
    ensures Inv(w, s.(served := s.served + 1, down := s.down + EncodeFrame(r)))
  {
    AnswerKeepsStreams(w, s);
    HeardBefore(s.down, EncodeFrame(r), s.downArrived, w.clientGarbage);
  }

  lemma ServeKeepsInv(w: World, s: State)
    requires Faithful(w) && Inv(w, s) && WellAligned(w, s)
    ensures Inv(w, Step(w, s, Serve))
  {
    if s.open && s.served < |AtServer(w, s)| {
      NextRequest(w, s);
      var c := s.calls[s.served];
      ServeAnswers(w, s, s.served, c);
      if Answered(w, s.served, c) {
        AnswerKeepsInv(w, s, ResponseFrame(w, s.served, Answer(w, c)));
      }
    }
  }

  /** The client completes the call of a response that has its id and a session for it. */
  lemma HandleCompletes(w: World, s: State, id: nat, body: seq<Byte>)
    requires Faithful(w) && id in s.sessions
    ensures HandleFrame(w, s, ResponseFrame(w, id, body)) ==
      s.(handled := s.handled + 1, sessions := s.sessions - {id}, done := s.done + [Done(id, s.sessions[id], body)])
  {
    assert w.decode(ResponseFrame(w, id, body).header) == Some(Header(MAGIC_NUM, VERSION, Response, id, "", ""));
  }

  lemma CompleteKeepsMatched(w: World, s: State)
    requires Matched(w, s) && s.handled < s.nextId
    ensures s.handled in s.sessions
    ensures Matched(w, s.(handled := s.handled + 1, sessions := s.sessions - {s.handled},
              done := s.done + [Done(s.handled, s.sessions[s.handled], Answer(w, s.calls[s.handled]))]))
  {
  }

  lemma HandleKeepsInv(w: World, s: State)
    requires Faithful(w) && Inv(w, s) && WellAligned(w, s)
    ensures Inv(w, Step(w, s, Handle))
  {
    if s.open && s.handled < |AtClient(w, s)| {
      NextResponse(w, s);
      CompleteKeepsMatched(w, s);
      HandleCompletes(w, s, s.handled, Answer(w, s.calls[s.handled]));
    }
  }

  lemma StepKeepsInv(w: World, s: State, a: Action)
    requires Faithful(w) && Inv(w, s) && WellAligned(w, s)
    ensures Inv(w, Step(w, s, a))
  {
    match a
    case Issue(c) => IssueKeepsInv(w, s, c);
    case Serve => ServeKeepsInv(w, s);
    case Handle => HandleKeepsInv(w, s);
    case _ => MoveKeepsInv(w, s, a);
  }

  lemma AlignedPart(fs: seq<Frame>, gs: seq<Frame>)
    requires fs <= gs && Aligned(0, gs)
    ensures Aligned(0, fs)
  {
    assert gs == fs + gs[|fs|..];
    AlignedPrefix(0, fs, gs[|fs|..]);
  }

  lemma FewerFrames(w: World, calls: seq<Call>, calls2: seq<Call>, n: nat, n2: nat)
    requires calls <= calls2 && n <= n2
    ensures Requests(w, calls) <= Requests(w, calls2) && Responses(w, calls, n) <= Responses(w, calls2, n2)
  {
  }

  lemma CallsGrow(w: World, s: State, a: Action)
    ensures s.calls <= Step(w, s, a).calls && s.served <= Step(w, s, a).served
  {
  }

  lemma AlignedBefore(w: World, s: State, a: Action)
    requires WellAligned(w, Step(w, s, a))
    ensures WellAligned(w, s)
  {
    var t := Step(w, s, a);
    CallsGrow(w, s, a);
    FewerFrames(w, s.calls, t.calls, s.served, t.served);
    AlignedPart(Requests(w, s.calls), Requests(w, t.calls));
    AlignedPart(Responses(w, s.calls, s.served), Responses(w, t.calls, t.served));
  }

  /** The invariant holds in every state of every run in which no length word is split. */
  lemma {:induction false} InvHolds(w: World, acts: seq<Action>)
    requires Faithful(w) && WellAligned(w, Exec(w, acts))
    ensures Inv(w, Exec(w, acts))
  {
    if acts == [] {
      assert Requests(w, []) == [] && Responses(w, [], 0) == [];
    } else {
      var before, a := acts[..|acts| - 1], acts[|acts| - 1];
      AlignedBefore(w, Exec(w, before), a);
      InvHolds(w, before);
      StepKeepsInv(w, Exec(w, before), a);
    }
  }

  // --- what follows for every run ---

  /** Where the message of a call is. */
  datatype Place = ClientBuffer | WireUp | Server | ServerBuffer | WireDown | Client | Completed

  /** A message is where its last byte is; a request that is answered has become a response. */
  ghost predicate IsAt(w: World, s: State, id: nat, p: Place)
    requires id < |s.calls|
  {
    var request := Size(Requests(w, s.calls)[..id + 1]);
    var response := if id < s.served <= |s.calls| then Size(Responses(w, s.calls, s.served)[..id + 1]) else 0;
    match p
    case ClientBuffer => s.upSent < request
    case WireUp => s.upArrived < request <= s.upSent
    case Server => request <= s.upArrived && s.served <= id
    case ServerBuffer => id < s.served && s.downSent < response
    case WireDown => id < s.served && s.downArrived < response <= s.downSent
    case Client => id < s.served && response <= s.downArrived && s.handled <= id
    case Completed => id < s.handled
  }

  lemma RequestArrived(w: World, s: State, id: nat)
    requires Streams(w, s) && Ordered(s) && WellAligned(w, s) && id < |s.calls|
    ensures id < |AtServer(w, s)| <==> Size(Requests(w, s.calls)[..id + 1]) <= s.upArrived
  {
    HeardWithin(Requests(w, s.calls), s.upArrived, id, w.serverGarbage);
  }

  lemma ResponseArrived(w: World, s: State, id: nat)
    requires Streams(w, s) && Ordered(s) && WellAligned(w, s) && id < s.served
    ensures id < |AtClient(w, s)| <==> Size(Responses(w, s.calls, s.served)[..id + 1]) <= s.downArrived
  {
    HeardWithin(Responses(w, s.calls, s.served), s.downArrived, id, w.clientGarbage);
  }

  /** In every state of every run, each call ever made is in exactly one place, and it has a session
      exactly until it is completed. */
  lemma EachCallInOnePlace(w: World, acts: seq<Action>, id: nat)
    requires Faithful(w) && WellAligned(w, Exec(w, acts)) && id < |Exec(w, acts).calls|
    ensures exists p :: IsAt(w, Exec(w, acts), id, p) && forall q :: IsAt(w, Exec(w, acts), id, q) ==> q == p
    ensures id in Exec(w, acts).sessions <==> !IsAt(w, Exec(w, acts), id, Completed)
  {
    InvHolds(w, acts);
    OnePlace(w, Exec(w, acts), id);
  }

  lemma OnePlace(w: World, s: State, id: nat)
    requires Inv(w, s) && WellAligned(w, s) && id < |s.calls|
    ensures exists p :: IsAt(w, s, id, p) && forall q :: IsAt(w, s, id, q) ==> q == p
  {
    RequestArrived(w, s, id);
    if id < s.served { ResponseArrived(w, s, id); }
    var p :=
      if id < s.handled then Completed
      else if id < s.served then
        var response := Size(Responses(w, s.calls, s.served)[..id + 1]);
        if s.downSent < response then ServerBuffer else if s.downArrived < response then WireDown else Client
      else
        var request := Size(Requests(w, s.calls)[..id + 1]);
        if s.upSent < request then ClientBuffer else if s.upArrived < request then WireUp else Server;
    assert IsAt(w, s, id, p);
    assert forall q :: IsAt(w, s, id, q) ==> q == p;
  }

  /** The calls that the client was asked to make while its channel was usable, in order. A request that does not
      fit in a frame is outside the model. */
  ghost function Issued(w: World, acts: seq<Action>): seq<Call> {
    if acts == [] then [] else
    var front, a := acts[..|acts| - 1], acts[|acts| - 1];
    if a.Issue? && Usable(Exec(w, front)) && Sendable(RequestFrame(w, |Issued(w, front)|, a.call))
    then Issued(w, front) + [a.call] else Issued(w, front)
  }

  predicate Usable(s: State) { s.open && !s.astray && Ordered(s) }

  lemma IssueRecords(w: World, s: State, a: Action)
    ensures var t := Step(w, s, a);
      if a.Issue? && Usable(s) && Sendable(RequestFrame(w, s.nextId, a.call))
      then t.calls == s.calls + [a.call] && t.nextId == s.nextId + 1
      else t.calls == s.calls && t.nextId == s.nextId
  {
  }

  /** The calls on record are exactly those that were issued. */
  lemma {:induction false} CallsAreIssued(w: World, acts: seq<Action>)
    ensures Exec(w, acts).calls == Issued(w, acts) && Exec(w, acts).nextId == |Issued(w, acts)|
  {
    if acts != [] {
      CallsAreIssued(w, acts[..|acts| - 1]);
      IssueRecords(w, Exec(w, acts[..|acts| - 1]), acts[|acts| - 1]);
    }
  }

  /** Every response finds its session; calls complete in the order in which they were issued, each at most once,
      each for the session that issued it and with the answer computed from its own request. */
  lemma EachCallGetsItsAnswer(w: World, acts: seq<Action>)
    requires Faithful(w) && WellAligned(w, Exec(w, acts))
    ensures var s, calls := Exec(w, acts), Issued(w, acts);
      && !s.astray
      && |s.done| <= |calls|
      && (forall i :: 0 <= i < |s.done| ==>
            && s.done[i].id == i && s.done[i].session == calls[i].session
            && w.serve(calls[i].service, calls[i].name, calls[i].body) == Some(s.done[i].response))
  {
    InvHolds(w, acts);
    CallsAreIssued(w, acts);
    var s := Exec(w, acts);
    forall i | 0 <= i < |s.done|
      ensures w.serve(s.calls[i].service, s.calls[i].name, s.calls[i].body) == Some(s.done[i].response)
    {
      assert Answered(w, i, s.calls[i]);
    }
  }

  /** A server with a request frame goes on to the next, or closes if the call has no answer. */
  lemma ServeMoves(w: World, s: State)
    requires Faithful(w) && Inv(w, s) && WellAligned(w, s) && s.open && s.served < |AtServer(w, s)|
    ensures s.served < |s.calls|
    ensures var t, ok := Step(w, s, Serve), Answered(w, s.served, s.calls[s.served]);
      t.open == ok && t.served == s.served + (if ok then 1 else 0)
  {
    NextRequest(w, s);
    ServeAnswers(w, s, s.served, s.calls[s.served]);
  }

  lemma HandleMoves(w: World, s: State)
    requires Faithful(w) && Inv(w, s) && WellAligned(w, s) && s.open && s.handled < |AtClient(w, s)|
    ensures Step(w, s, Handle).open && Step(w, s, Handle).handled == s.handled + 1
  {
    NextResponse(w, s);
    CompleteKeepsMatched(w, s);
    HandleCompletes(w, s, s.handled, Answer(w, s.calls[s.handled]));
  }

  /** All bytes have arrived and neither loop has a frame to handle. */
  ghost predicate AtRest(w: World, s: State) {
    s.upArrived == |s.up| && s.downArrived == |s.down| && Step(w, s, Serve) == s && Step(w, s, Handle) == s
  }

  lemma AllHasArrived(w: World, s: State)
    requires Inv(w, s) && WellAligned(w, s) && s.upArrived == |s.up| && s.downArrived == |s.down|
    ensures |AtServer(w, s)| == |s.calls| && |AtClient(w, s)| == s.served
  {
    HeardIsSent(Requests(w, s.calls), s.upArrived, w.serverGarbage);
    HeardIsSent(Responses(w, s.calls, s.served), s.downArrived, w.clientGarbage);
  }

  /** An open connection comes to rest only when every call is completed. */
  lemma NothingIsLost(w: World, acts: seq<Action>)
    requires Faithful(w) && WellAligned(w, Exec(w, acts)) && Exec(w, acts).open && AtRest(w, Exec(w, acts))
    ensures |Exec(w, acts).done| == |Issued(w, acts)| && Exec(w, acts).sessions == map[]
  {
    InvHolds(w, acts);
    CallsAreIssued(w, acts);
    var s := Exec(w, acts);
    AllHasArrived(w, s);
    if s.served < |s.calls| {
      ServeMoves(w, s);
    } else if s.handled < s.served {
      HandleMoves(w, s);
    }
  }

  ghost predicate AllAnswered(w: World, calls: seq<Call>) {
    forall i :: 0 <= i < |calls| ==> Answered(w, i, calls[i])
  }

  lemma StaysOpen(w: World, s: State, a: Action)
    requires Faithful(w) && Inv(w, s) && WellAligned(w, s) && s.open
    requires AllAnswered(w, s.calls)
    ensures Step(w, s, a).open
  {
    if a.Serve? && s.served < |AtServer(w, s)| {
      ServeMoves(w, s);
    } else if a.Handle? && s.handled < |AtClient(w, s)| {
      HandleMoves(w, s);
    }
  }

  lemma AnsweredBefore(w: World, s: State, a: Action)
    requires AllAnswered(w, Step(w, s, a).calls)
    ensures AllAnswered(w, s.calls)
  {
    assert s.calls <= Step(w, s, a).calls;
    assert forall i :: 0 <= i < |s.calls| ==> s.calls[i] == Step(w, s, a).calls[i];
  }

  /** The server closes the connection only on a call that its service does not answer. */
  lemma {:induction false} ClosesOnlyUnanswered(w: World, acts: seq<Action>)
    requires Faithful(w) && WellAligned(w, Exec(w, acts))
    requires AllAnswered(w, Exec(w, acts).calls)
    ensures Exec(w, acts).open
  {
    if acts != [] {
      var before, a := acts[..|acts| - 1], acts[|acts| - 1];
      AlignedBefore(w, Exec(w, before), a);
      AnsweredBefore(w, Exec(w, before), a);
      InvHolds(w, before);
      ClosesOnlyUnanswered(w, before);
      StaysOpen(w, Exec(w, before), a);
    }
  }

  // --- every call can be completed ---

  /** The state after actions that start at `s`. */
  function After(w: World, s: State, acts: seq<Action>): State {
    if acts == [] then s else Step(w, After(w, s, acts[..|acts| - 1]), acts[|acts| - 1])
  }

  lemma {:induction false} ExecAfter(w: World, acts: seq<Action>, more: seq<Action>)
    ensures Exec(w, acts + more) == After(w, Exec(w, acts), more)
  {
    if more == [] {
      assert acts + more == acts;
    } else {
      ExecAfter(w, acts, more[..|more| - 1]);
      assert (acts + more)[..|acts + more| - 1] == acts + more[..|more| - 1];
    }
  }

  ghost predicate Reaches(w: World, s: State, s2: State) { exists acts :: After(w, s, acts) == s2 }

  lemma ReachesStep(w: World, s: State, s2: State, a: Action)
    requires Reaches(w, s, s2)
    ensures Reaches(w, s, Step(w, s2, a))
  {
    var acts :| After(w, s, acts) == s2;
    assert (acts + [a])[..|acts + [a]| - 1] == acts;
    assert After(w, s, acts + [a]) == Step(w, s2, a);
  }

  /** The service answers all calls, and no length word of them or of their answers is split. */
  ghost predicate Serviceable(w: World, s: State) {
    && Faithful(w) && Inv(w, s) && s.open && AllAnswered(w, s.calls)
    && Aligned(0, Requests(w, s.calls)) && Aligned(0, Responses(w, s.calls, |s.calls|))
  }

  lemma StillServiceable(w: World, s: State, a: Action)
    requires Serviceable(w, s) && !a.Issue?
    ensures WellAligned(w, s) && Serviceable(w, Step(w, s, a)) && Step(w, s, a).calls == s.calls
  {
    FewerFrames(w, s.calls, s.calls, s.served, |s.calls|);
    AlignedPart(Responses(w, s.calls, s.served), Responses(w, s.calls, |s.calls|));
    StepKeepsInv(w, s, a);
    StaysOpen(w, s, a);
    SameCalls(w, s, a);
  }

  lemma SameCalls(w: World, s: State, a: Action)
    requires !a.Issue?
    ensures Step(w, s, a).calls == s.calls
  {
  }

  lemma Go(w: World, s0: State, s: State, a: Action) returns (s2: State)
    requires Serviceable(w, s) && Reaches(w, s0, s) && !a.Issue?
    ensures s2 == Step(w, s, a) && Serviceable(w, s2) && Reaches(w, s0, s2) && s2.calls == s.calls && WellAligned(w, s)
  {
    StillServiceable(w, s, a);
    ReachesStep(w, s0, s, a);
    s2 := Step(w, s, a);
  }

  lemma AllRequestsHere(w: World, s: State)
    requires Serviceable(w, s) && s.upArrived == |s.up|
    ensures |AtServer(w, s)| == |s.calls|
  {
    HeardIsSent(Requests(w, s.calls), s.upArrived, w.serverGarbage);
  }

  lemma AllResponsesHere(w: World, s: State)
    requires Serviceable(w, s) && WellAligned(w, s) && s.downArrived == |s.down|
    ensures |AtClient(w, s)| == s.served
  {
    HeardIsSent(Responses(w, s.calls, s.served), s.downArrived, w.clientGarbage);
  }

  lemma UpMoves(w: World, s: State)
    requires Usable(s)
    ensures var a := Step(w, s, SendUp(|s.up| - s.upSent));
      a == s.(upSent := |s.up|) && Step(w, a, ArriveUp(|s.up| - s.upArrived)) == a.(upArrived := |s.up|)
  {
  }

  lemma DownMoves(w: World, s: State)
    requires Usable(s)
    ensures var a := Step(w, s, SendDown(|s.down| - s.downSent));
      a == s.(downSent := |s.down|) && Step(w, a, ArriveDown(|s.down| - s.downArrived)) == a.(downArrived := |s.down|)
  {
  }

  lemma BringUp(w: World, s0: State, s: State) returns (s2: State)
    requires Serviceable(w, s) && Reaches(w, s0, s)
    ensures Serviceable(w, s2) && Reaches(w, s0, s2) && s2 == s.(upSent := |s.up|, upArrived := |s.up|)
  {
    UpMoves(w, s);
    s2 := Go(w, s0, s, SendUp(|s.up| - s.upSent));
    s2 := Go(w, s0, s2, ArriveUp(|s.up| - s.upArrived));
  }

  lemma BringDown(w: World, s0: State, s: State) returns (s2: State)
    requires Serviceable(w, s) && Reaches(w, s0, s)
    ensures Serviceable(w, s2) && Reaches(w, s0, s2) && s2 == s.(downSent := |s.down|, downArrived := |s.down|)
  {
    DownMoves(w, s);
    s2 := Go(w, s0, s, SendDown(|s.down| - s.downSent));
    s2 := Go(w, s0, s2, ArriveDown(|s.down| - s.downArrived));
  }

  lemma StreamsStay(w: World, s: State)
    ensures var t := Step(w, s, Serve); t.up == s.up && t.upArrived == s.upArrived
    ensures var t := Step(w, s, Handle); t.down == s.down && t.downArrived == s.downArrived && t.served == s.served
  {
  }

  lemma ServeOne(w: World, s0: State, s: State) returns (s2: State)
    requires Serviceable(w, s) && Reaches(w, s0, s) && s.upArrived == |s.up| && s.served < |s.calls|
    ensures Serviceable(w, s2) && Reaches(w, s0, s2) && s2.calls == s.calls
    ensures s2.upArrived == |s2.up| && s2.served == s.served + 1
  {
    AllRequestsHere(w, s);
    s2 := Go(w, s0, s, Serve);
    ServeMoves(w, s);
    StreamsStay(w, s);
  }

  lemma HandleOne(w: World, s0: State, s: State) returns (s2: State)
    requires Serviceable(w, s) && Reaches(w, s0, s) && s.downArrived == |s.down| && s.handled < s.served
    ensures Serviceable(w, s2) && Reaches(w, s0, s2) && s2.calls == s.calls
    ensures s2.downArrived == |s2.down| && s2.served == s.served && s2.handled == s.handled + 1
  {
    s2 := Go(w, s0, s, Handle);
    AllResponsesHere(w, s);
    HandleMoves(w, s);
    StreamsStay(w, s);
  }

  lemma {:induction false} ServeAll(w: World, s0: State, s: State) returns (s2: State)
    requires Serviceable(w, s) && Reaches(w, s0, s) && s.upArrived == |s.up|
    ensures Serviceable(w, s2) && Reaches(w, s0, s2) && s2.calls == s.calls && s2.served == |s.calls|
    decreases |s.calls| - s.served
  {
    s2 := s;
    if s.served < |s.calls| {
      s2 := ServeOne(w, s0, s);
      s2 := ServeAll(w, s0, s2);
    }
  }

  lemma {:induction false} HandleAll(w: World, s0: State, s: State) returns (s2: State)
    requires Serviceable(w, s) && Reaches(w, s0, s) && s.downArrived == |s.down| && s.served == |s.calls|
    ensures Serviceable(w, s2) && Reaches(w, s0, s2) && s2.calls == s.calls && s2.handled == |s.calls|
    decreases |s.calls| - s.handled
  {
    s2 := s;
    if s.handled < s.served {
      s2 := HandleOne(w, s0, s);
      s2 := HandleAll(w, s0, s2);
    }
  }

  lemma AllComplete(w: World, s: State) returns (s2: State)
    requires Serviceable(w, s)
    ensures Serviceable(w, s2) && Reaches(w, s, s2) && s2.calls == s.calls && s2.handled == |s.calls|
  {
    assert After(w, s, []) == s;
    s2 := BringUp(w, s, s);
    s2 := ServeAll(w, s, s2);
    s2 := BringDown(w, s, s2);
    s2 := HandleAll(w, s, s2);
  }

  /** From every state of every run whose calls are all answered, some continuation completes all of them. */
  lemma EveryCallCanComplete(w: World, acts: seq<Action>)
    requires Faithful(w) && AllAnswered(w, Issued(w, acts))
    requires Aligned(0, Requests(w, Issued(w, acts))) && Aligned(0, Responses(w, Issued(w, acts), |Issued(w, acts)|))
    ensures exists more :: |Exec(w, acts + more).done| == |Issued(w, acts)| && Exec(w, acts + more).sessions == map[]
  {
    CallsAreIssued(w, acts);
    var s := Exec(w, acts);
    FewerFrames(w, s.calls, s.calls, Min(s.served, |s.calls|), |s.calls|);
    assert Responses(w, s.calls, s.served) == Responses(w, s.calls, Min(s.served, |s.calls|));
    AlignedPart(Responses(w, s.calls, s.served), Responses(w, s.calls, |s.calls|));
    InvHolds(w, acts);
    ClosesOnlyUnanswered(w, acts);
    var s2 := AllComplete(w, s);
    var more :| After(w, s, more) == s2;
    ExecAfter(w, acts, more);
  }

  // --- calls whose length words are split ---

  /** What holds in every run, aligned or not: the client's stream encodes the calls, and the server has
      handled only what has arrived. */
  ghost predicate UpStream(w: World, s: State) {
    && Ordered(s) && s.nextId == |s.calls|
    && AllSendable(Requests(w, s.calls)) && s.up == Encode(Requests(w, s.calls))
    && s.served <= |AtServer(w, s)|
  }

  lemma IssueKeepsUpStream(w: World, s: State, c: Call)
    requires UpStream(w, s)
    ensures UpStream(w, Step(w, s, Issue(c)))
  {
    var f := RequestFrame(w, s.nextId, c);
    if s.open && !s.astray && Sendable(f) {
      NewRequest(w, s.calls, c, 0);
      EncodeSnoc(Requests(w, s.calls), f);
      HeardBefore(s.up, EncodeFrame(f), s.upArrived, w.serverGarbage);
    }
  }

  lemma OthersKeepUpStream(w: World, s: State, t: State)
    requires UpStream(w, s) && Ordered(t) && t.calls == s.calls && t.nextId == s.nextId && t.up == s.up
    requires s.upArrived <= t.upArrived && t.served <= |AtServer(w, s)|
    ensures UpStream(w, t)
  {
    MoreHeard(s.up, s.upArrived, t.upArrived, w.serverGarbage);
  }

  lemma StepKeepsUpStream(w: World, s: State, a: Action)
    requires UpStream(w, s)
    ensures UpStream(w, Step(w, s, a))
  {
    if a.Issue? {
      IssueKeepsUpStream(w, s, a.call);
    } else {
      OthersKeepUpStream(w, s, Step(w, s, a));
    }
  }

  lemma {:induction false} UpStreamHolds(w: World, acts: seq<Action>)
    ensures UpStream(w, Exec(w, acts))
  {
    if acts == [] {
      assert Requests(w, []) == [];
    } else {
      UpStreamHolds(w, acts[..|acts| - 1]);
      StepKeepsUpStream(w, Exec(w, acts[..|acts| - 1]), acts[|acts| - 1]);
    }
  }

  /** If a length word of the requests is split, and the server's length variables happen to hold all ones,
      some call is never served: not even once all bytes have arrived. */
  lemma SplitWordLosesCall(w: World, acts: seq<Action>)
    requires w.serverGarbage == AllOnes() && !Aligned(0, Requests(w, Exec(w, acts).calls))
    ensures Exec(w, acts).served < |Exec(w, acts).calls|
  {
    UpStreamHolds(w, acts);
    var s := Exec(w, acts);
    MoreHeard(s.up, s.upArrived, |s.up|, w.serverGarbage);
    HeardAll(s.up, w.serverGarbage);
    assert s.up[0..] == s.up;
    SplitWordLosesFrames(s.up, 0, Requests(w, s.calls));
  }

  /** Whatever the length variables hold, the whole stream is received as `fs`. */
  ghost predicate AlwaysHeard(stream: seq<Byte>, fs: seq<Frame>) { forall g :: Heard(stream, |stream|, g) == fs }

  lemma HeardIffAligned(fs: seq<Frame>)
    requires AllSendable(fs)
    ensures Aligned(0, fs) <==> AlwaysHeard(Encode(fs), fs)
  {
    var stream := Encode(fs);
    if Aligned(0, fs) {
      forall g ensures Heard(stream, |stream|, g) == fs { HeardIsSent(fs, |stream|, g); }
    } else {
      assert stream[0..] == stream;
      SplitWordLosesFrames(stream, 0, fs);
      HeardAll(stream, AllOnes());
      assert Heard(stream, |stream|, AllOnes()) != fs;
    }
  }

  /** The length words of the requests lie inside one block each if and only if all requests are received
      when all their bytes have arrived, whatever the server's length variables hold. */
  lemma AllHeardIffAligned(w: World, acts: seq<Action>)
    ensures var fs := Requests(w, Exec(w, acts).calls); Aligned(0, fs) <==> AlwaysHeard(Exec(w, acts).up, fs)
  {
    UpStreamHolds(w, acts);
    HeardIffAligned(Requests(w, Exec(w, acts).calls));
  }
}
