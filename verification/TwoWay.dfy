/** The way back: handlers answer on their request streams, the server's writer sends the packets, and the client's
    reader hands each to the live request stream with its id. It looks at nothing but the id, so what matters is when
    the id of a deleted stream may be taken again.

    The response direction has the same queue, wire and segmentation as the request direction, so its sending half is
    another state of module Demux, in which the sending streams are those of the server: stream m answers session m.
    The receiving half is different, and is here. Once the server's reader has stopped, its stream is disconnected
    and nothing more can be sent; and likewise for the client. */
module TwoWay {
  import opened Wrappers
  import opened Packet
  import opened Segments
  import D = Demux

  /** What a client stream has been given: the packets pushed to it, each with the session that sent it, what is
      still unread of them, and the bytes read. */
  datatype Inbox = Inbox(pushed: seq<D.Entry>, source: Reader, got: seq<Byte>)

  datatype State = State(
    req: D.State,           // the request direction
    res: D.State,           // the response direction; its `stopped` is about the client's reader
    inboxes: seq<Inbox>)    // of every client stream ever created

  const INIT := State(D.INIT, D.INIT, [])

  datatype Step =
    | Request(step: D.Step)               // a step of the request direction
    | Respond(m: nat, data: seq<Byte>)    // the handler of session m writes, putting at most one packet into the queue
    | FlushResponse(m: nat)
    | Transmit                            // the server's writer takes a packet and writes its frame
    | Receive                             // the client's reader reads a frame and dispatches it
    | ReaderStops                         // it fails to read
    | Read(c: nat, len: nat)              // a caller reads from its stream
    | Disconnect(c: nat)                  // a live client stream is disconnected

  predicate Enabled(s: State, step: Step) {
    match step
    case Request(r) => D.Enabled(s.req, r) && (r.Transmit? ==> !s.res.stopped)
    case Respond(m, data) => D.Enabled(s.res, D.Write(m, data))
    case FlushResponse(m) => D.Enabled(s.res, D.Flush(m))
    case Transmit => D.Enabled(s.res, D.Transmit) && !s.req.stopped
    case Receive => D.Enabled(s.res, D.Receive)
    case ReaderStops => true
    case Read(c, _) => D.LiveClient(s.req, c) && c < |s.inboxes|
    case Disconnect(c) => D.LiveClient(s.req, c) && c < |s.inboxes|
  }

  /** An accepted session gets a sending stream. */
  function Opened(res: D.State, id: Byte): D.State {
    if D.Enabled(res, D.Create(id)) then D.Apply(res, D.Create(id)) else res
  }

  /** A session that is over loses it. */
  function Closed(res: D.State, id: Byte): D.State {
    if id in res.clientSlots && D.LiveClient(res, res.clientSlots[id])
    then D.Apply(res, D.Delete(res.clientSlots[id]))
    else res
  }

  function RequestStep(s: State, r: D.Step): State
    requires D.Enabled(s.req, r)
  {
    var req' := D.Apply(s.req, r);
    match r
    case Create(_) => s.(req := req', inboxes := s.inboxes + [Inbox([], Reader(None, []), [])])
    case Receive =>
      var n := |req'.sessions|;
      s.(req := req', res := if n > |s.req.sessions| then Opened(s.res, req'.sessions[n - 1].id) else s.res)
    case Finish(id) => s.(req := req', res := Closed(s.res, id))
    case _ => s.(req := req')
  }

  function Push(x: Inbox, e: D.Entry): Inbox {
    x.(pushed := x.pushed + [e], source := x.source.(queue := x.source.queue + [e.frame]))
  }

  /** The frame at the head of the wire has been read. */
  function Taken(res: D.State, rest: seq<Byte>): D.State {
    res.(wire := rest, received := res.received + 1)
  }

  /** What the client's reader does with a packet: whatever its type, it goes to the live stream with its id. */
  function Dispatch(s: State, e: D.Entry, rest: seq<Byte>): State {
    if e.frame.id in s.req.clientSlots && s.req.clientSlots[e.frame.id] < |s.inboxes| then
      var c := s.req.clientSlots[e.frame.id];
      s.(res := Taken(s.res, rest), inboxes := s.inboxes[c := Push(s.inboxes[c], e)])
    else s.(res := Taken(s.res, rest).(stopped := true))
  }

  function ReadInbox(x: Inbox, len: nat): Inbox {
    var r := ReadBytes(x.source, len);
    x.(source := r.state, got := x.got + r.data)
  }

  function Disconnected(x: Inbox, id: Byte): Inbox {
    x.(source := x.source.(queue := x.source.queue + [Frame(id, End, [])]))
  }

  function Apply(s: State, step: Step): State
    requires Enabled(s, step)
  {
    match step
    case Request(r) => RequestStep(s, r)
    case Respond(m, data) => s.(res := D.Apply(s.res, D.Write(m, data)))
    case FlushResponse(m) => s.(res := D.Apply(s.res, D.Flush(m)))
    case Transmit => s.(res := D.Apply(s.res, D.Transmit))
    case Receive =>
      var Got(f, rest) := DecodeFrame(s.res.wire);
      Dispatch(s, D.Entry(f, D.OwnerAt(s.res, s.res.received)), rest)
    case ReaderStops => s.(res := s.res.(stopped := true))
    case Read(c, len) => s.(inboxes := s.inboxes[c := ReadInbox(s.inboxes[c], len)])
    case Disconnect(c) => s.(inboxes := s.inboxes[c := Disconnected(s.inboxes[c], s.req.clients[c].id)])
  }

  function Run(s: State, steps: seq<Step>): Option<State>
    decreases |steps|
  {
    if steps == [] then Some(s)
    else if Enabled(s, steps[0]) then Run(Apply(s, steps[0]), steps[1..])
    else None
  }

  // ---- when an id may be taken again ----

  /** Session m serves client stream c. */
  predicate Serves(req: D.State, m: nat, c: nat) {
    m < |req.sessions| && req.sessions[m].owner == c
  }

  /** Response packet k can still be read: it is on the wire, or in the queue of a server that is connected. */
  predicate Flying(req: D.State, res: D.State, k: nat) {
    res.received <= k < |res.log| && (k < res.sent || !req.stopped)
  }

  /** The server's reader can get past these frames, if handlers return when it needs their slots: an opening frame
      is then always accepted, a continuing one needs a stream in its slot. */
  predicate CanRead(taken: set<Byte>, fs: seq<Frame>)
    decreases |fs|
  {
    if fs == [] then true
    else if Opens(fs[0].kind) then CanRead(taken + {fs[0].id}, fs[1..])
    else fs[0].id in taken && CanRead(taken, fs[1..])
  }

  /** Request packet k can still open a session with this id. */
  predicate MayOpen(req: D.State, k: nat, id: Byte) {
    && req.received <= k < |req.log| && Opens(req.log[k].frame.kind) && req.log[k].frame.id == id
    && CanRead(req.serverSlots.Keys, D.Frames(req.log[req.received..k]))
  }

  /** The session in the slot of this id has not flushed its response. */
  predicate Answering(req: D.State, res: D.State, id: Byte) {
    id in req.serverSlots && req.serverSlots[id] < |res.clients| && !res.clients[req.serverSlots[id]].flushed
  }

  /** A packet with this id is still to come: it is on its way, or a session with the id has not flushed its
      response yet, or a request on its way can still open one. */
  ghost predicate Pending(s: State, id: Byte) {
    && !s.res.stopped
    && ((exists k: nat :: Flying(s.req, s.res, k) && s.res.log[k].frame.id == id)
        || (!s.req.stopped && (Answering(s.req, s.res, id) || exists k: nat :: MayOpen(s.req, k, id))))
  }

  /** All that is still to come with this id is for client stream c. */
  ghost predicate Fresh(req: D.State, res: D.State, id: Byte, c: nat) {
    !res.stopped ==>
      && FreshPackets(req, res, id, c)
      && (!req.stopped ==> FreshSession(req, res, id, c) && FreshRequests(req, id, c))
  }

  ghost predicate FreshPackets(req: D.State, res: D.State, id: Byte, c: nat) {
    forall k: nat :: Flying(req, res, k) && res.log[k].frame.id == id ==> Serves(req, res.log[k].owner, c)
  }

  ghost predicate FreshSession(req: D.State, res: D.State, id: Byte, c: nat) {
    Answering(req, res, id) ==> Serves(req, req.serverSlots[id], c)
  }

  ghost predicate FreshRequests(req: D.State, id: Byte, c: nat) {
    forall k: nat :: MayOpen(req, k, id) ==> req.log[k].owner == c
  }

  /** Every packet pushed to client stream c comes from a session that serves it. */
  ghost predicate Own(s: State, c: nat) {
    c < |s.inboxes| ==>
      forall k :: 0 <= k < |s.inboxes[c].pushed| ==> Serves(s.req, s.inboxes[c].pushed[k].owner, c)
  }

  /** Whatever happens from here on, client stream c is given packets of its own session only. */
  ghost predicate AlwaysOwn(t: State, c: nat) {
    forall after :: Run(t, after).Some? ==> Own(Run(t, after).value, c)
  }

  ghost predicate ReadsFrom(x: Inbox, handler: D.Client) {
    D.Frames(x.pushed) <= D.Sent(handler) && x.got <= handler.written
  }

  /** The steps of the request direction. */
  function RequestsOf(steps: seq<Step>): seq<D.Step> {
    if steps == [] then []
    else (if steps[0].Request? then [steps[0].step] else []) + RequestsOf(steps[1..])
  }

  /** What the handlers write and flush. */
  function AnswersOf(steps: seq<Step>): seq<D.Step> {
    if steps == [] then []
    else AnswerOf(steps[0]) + AnswersOf(steps[1..])
  }

  function AnswerOf(step: Step): seq<D.Step> {
    match step
    case Respond(m, data) => [D.Write(m, data)]
    case FlushResponse(m) => [D.Flush(m)]
    case _ => []
  }

  ghost predicate Reached(s: State) {
    exists steps :: Run(INIT, steps) == Some(s)
  }

  // ---- the results; what they rest on follows ----

  /** In every reachable state and for every free id: a client stream created with it is given packets of its own
      session only, whatever happens from then on, if and only if no packet with the id is still to come. */
  lemma IdMayBeTaken(before: seq<Step>, id: Byte)
    requires Run(INIT, before).Some? && id !in Run(INIT, before).value.req.clientSlots
    ensures var s := Run(INIT, before).value;
            AlwaysOwn(Apply(s, Request(D.Create(id))), |s.req.clients|) <==> !Pending(s, id)
  {
    assert Reached(Run(INIT, before).value);
    IdIsSafe(Run(INIT, before).value, id);
  }

  /** There is a run with a stale response: stream 0 is deleted after its request has been flushed, stream 1 takes its
      id, and gets the response. */
  lemma StaleResponseHappens()
    ensures exists steps :: Run(INIT, steps).Some? && !Own(Run(INIT, steps).value, 1)
  {
    var s := DeletedEarly();
    var u := LeadsOn(INIT, s, Request(D.Create(0)));
    var t := TakenTooEarly(s, 0);
    var before :| Run(INIT, before) == Some(u);
    var after :| Run(u, after) == Some(t);
    RunOn(INIT, before, after);
  }

  /** The request direction of a run is a run of module Demux, so what is proved there holds of it. */
  lemma {:induction false} RequestDirection(s: State, steps: seq<Step>)
    requires Run(s, steps).Some?
    ensures D.Run(s.req, RequestsOf(steps)) == Some(Run(s, steps).value.req)
    decreases |steps|
  {
    if steps != [] {
      RequestDirection(Apply(s, steps[0]), steps[1..]);
      if steps[0].Request? {
        D.RunCons(s.req, steps[0].step, RequestsOf(steps[1..]));
      } else {
        assert [] + RequestsOf(steps[1..]) == RequestsOf(steps[1..]);
      }
    }
  }

  /** A client stream whose id was taken when no packet with the id was still to come: in every continuation of every
      run, the packets pushed to it are a prefix of those of the bytes the handler of its session was made to write, and
      the bytes its caller has read a prefix of those bytes. */
  lemma ResponseDemultiplexing(before: seq<Step>, id: Byte, after: seq<Step>)
    requires Run(INIT, before).Some? && id !in Run(INIT, before).value.req.clientSlots
    requires var s := Run(INIT, before).value;
             !Pending(s, id) && Run(Apply(s, Request(D.Create(id))), after).Some?
    ensures var c, all := |Run(INIT, before).value.req.clients|, before + [Request(D.Create(id))] + after;
            && Run(INIT, all).Some?
            && var u := Run(INIT, all).value;
               c < |u.inboxes| && Own(u, c)
               && forall m: nat :: Serves(u.req, m, c) ==>
                    && D.Frames(u.inboxes[c].pushed) <= D.SentBy(AnswersOf(all), m, u.req.sessions[m].id)
                    && u.inboxes[c].got <= D.WrittenBy(AnswersOf(all), m)
  {
    var c, all := |Run(INIT, before).value.req.clients|, before + [Request(D.Create(id))] + after;
    var u := ServedAfter(before, id, after);
    forall m: nat | Serves(u.req, m, c)
      ensures D.Frames(u.inboxes[c].pushed) <= D.SentBy(AnswersOf(all), m, u.req.sessions[m].id)
      ensures u.inboxes[c].got <= D.WrittenBy(AnswersOf(all), m)
    {
      ServedReads(u, m, c);
      AnswerIs(all, m);
    }
  }

  lemma ServedAfter(before: seq<Step>, id: Byte, after: seq<Step>) returns (u: State)
    requires Run(INIT, before).Some? && id !in Run(INIT, before).value.req.clientSlots
    requires var s := Run(INIT, before).value;
             !Pending(s, id) && Run(Apply(s, Request(D.Create(id))), after).Some?
    ensures u == Run(Apply(Run(INIT, before).value, Request(D.Create(id))), after).value
    ensures Run(INIT, before + [Request(D.Create(id))] + after) == Some(u)
    ensures Reached(u) && Served(u, |Run(INIT, before).value.req.clients|)
  {
    var s := Run(INIT, before).value;
    var t, c := Apply(s, Request(D.Create(id))), |s.req.clients|;
    assert Reached(s);
    ReachedNext(s, Request(D.Create(id)));
    ServedCreate(s, id);
    ReachedRun(t, after);
    ServedRun(t, after, c);
    u := Run(t, after).value;
    RunAppend(INIT, before, Request(D.Create(id)));
    RunOn(INIT, before + [Request(D.Create(id))], after);
  }

  /** Once everything the handler wrote and flushed has travelled, and the client stream lives and its reader runs, the
      packets it has been given carry exactly what was written. */
  lemma ResponseDelivery(before: seq<Step>, id: Byte, after: seq<Step>, m: nat)
    requires Run(INIT, before).Some? && id !in Run(INIT, before).value.req.clientSlots
    requires var s := Run(INIT, before).value;
             !Pending(s, id) && Run(Apply(s, Request(D.Create(id))), after).Some?
    requires var c, all := |Run(INIT, before).value.req.clients|, before + [Request(D.Create(id))] + after;
             && Run(INIT, all).Some?
             && var u := Run(INIT, all).value;
                && Serves(u.req, m, c) && D.LiveClient(u.req, c) && !u.res.stopped
                && u.res.queue == [] && u.res.wire == [] && D.Flush(m) in AnswersOf(all)
    ensures var c, all := |Run(INIT, before).value.req.clients|, before + [Request(D.Create(id))] + after;
            var u, b := Run(INIT, all).value, D.WrittenBy(AnswersOf(all), m);
            && c < |u.inboxes| && Payloads(D.Frames(u.inboxes[c].pushed)) == b
            && D.Frames(u.inboxes[c].pushed) == Flushed(u.req.sessions[m].id, b)
  {
    var c, all := |Run(INIT, before).value.req.clients|, before + [Request(D.Create(id))] + after;
    var u := ServedAfter(before, id, after);
    ServedReads(u, m, c);
    AnswerIs(all, m);
    AllArrived(u, m, c);
  }

  // ---- what the handlers have written ----

  /** What some answers make of the sending stream x of session m. */
  ghost predicate Continues(x: D.Client, y: D.Client, answers: seq<D.Step>, m: nat) {
    && y.id == x.id && y.written == x.written + D.WrittenBy(answers, m)
    && (y.flushed <==> x.flushed || D.Flush(m) in answers)
  }

  lemma AnswerStep(s: State, step: Step, m: nat)
    requires Enabled(s, step)
    ensures var t, before := Apply(s, step), |s.res.clients|;
            && before <= |t.res.clients| <= before + 1
            && (m < before ==> Continues(s.res.clients[m], t.res.clients[m], AnswerOf(step), m))
            && (m >= before ==> !(step.Respond? && step.m == m) && step != FlushResponse(m))
            && (before <= m < |t.res.clients| ==> t.res.clients[m].written == [] && !t.res.clients[m].flushed)
  {
    if m < |s.res.clients| {
      assert s.res.clients[m].written + [] == s.res.clients[m].written;
    }
    match step
    case Request(r) => RequestKeepsAnswers(s, r);
    case Respond(_, _) => case FlushResponse(_) => case Transmit => case Receive => case ReaderStops =>
    case Read(_, _) => case Disconnect(_) =>
  }

  lemma RequestKeepsAnswers(s: State, r: D.Step)
    requires D.Enabled(s.req, r)
    ensures var t, before := RequestStep(s, r).res, |s.res.clients|;
            && before <= |t.clients| <= before + 1
            && (forall m :: 0 <= m < before ==>
                  var x, y := s.res.clients[m], t.clients[m];
                  y.id == x.id && y.written == x.written && y.flushed == x.flushed)
            && (before < |t.clients| ==> t.clients[before].written == [] && !t.clients[before].flushed)
  {
  }

  lemma ContinuesOn(x: D.Client, y: D.Client, z: D.Client, step: Step, rest: seq<D.Step>, m: nat)
    requires Continues(x, y, AnswerOf(step), m) && Continues(y, z, rest, m)
    ensures Continues(x, z, AnswerOf(step) + rest, m)
  {
    var all := AnswerOf(step) + rest;
    if AnswerOf(step) == [] {
      assert all == rest;
      assert x.written + [] == x.written;
    } else {
      assert all[1..] == rest && AnswerOf(step)[1..] == [];
      assert D.WrittenBy(all, m) == D.WrittenBy(AnswerOf(step), m) + D.WrittenBy(rest, m);
      assert x.written + D.WrittenBy(AnswerOf(step), m) + D.WrittenBy(rest, m)
          == x.written + (D.WrittenBy(AnswerOf(step), m) + D.WrittenBy(rest, m));
    }
  }

  lemma {:induction false} OldSender(s: State, steps: seq<Step>, m: nat)
    requires Run(s, steps).Some? && m < |s.res.clients|
    ensures var t := Run(s, steps).value;
            m < |t.res.clients| && Continues(s.res.clients[m], t.res.clients[m], AnswersOf(steps), m)
    decreases |steps|
  {
    if steps == [] {
      assert s.res.clients[m].written + [] == s.res.clients[m].written;
    } else {
      var t := Apply(s, steps[0]);
      AnswerStep(s, steps[0], m);
      OldSender(t, steps[1..], m);
      ContinuesOn(s.res.clients[m], t.res.clients[m], Run(s, steps).value.res.clients[m], steps[0],
                  AnswersOf(steps[1..]), m);
    }
  }

  lemma {:induction false} NewSender(s: State, steps: seq<Step>, m: nat)
    requires Run(s, steps).Some? && |s.res.clients| <= m < |Run(s, steps).value.res.clients|
    ensures var z := Run(s, steps).value.res.clients[m];
            && z.written == D.WrittenBy(AnswersOf(steps), m) && (z.flushed <==> D.Flush(m) in AnswersOf(steps))
    decreases |steps|
  {
    if steps != [] {
      var t := Apply(s, steps[0]);
      var z := Run(s, steps).value.res.clients[m];
      AnswerStep(s, steps[0], m);
      if m < |t.res.clients| {
        OldSender(t, steps[1..], m);
      } else {
        NewSender(t, steps[1..], m);
      }
      NotMine(steps[0], AnswersOf(steps[1..]), m);
    }
  }

  lemma NotMine(step: Step, rest: seq<D.Step>, m: nat)
    requires !(step.Respond? && step.m == m) && step != FlushResponse(m)
    ensures D.WrittenBy(AnswerOf(step) + rest, m) == D.WrittenBy(rest, m)
    ensures D.Flush(m) in AnswerOf(step) + rest <==> D.Flush(m) in rest
  {
    var all := AnswerOf(step) + rest;
    if AnswerOf(step) == [] {
      assert all == rest;
    } else {
      assert all[1..] == rest;
    }
  }

  /** What the handler of session m has sent is what the steps made it write and flush. */
  lemma AnswerIs(steps: seq<Step>, m: nat)
    requires Run(INIT, steps).Some? && m < |Run(INIT, steps).value.res.clients|
    ensures var u := Run(INIT, steps).value;
            && m < |u.req.sessions| && u.res.clients[m].id == u.req.sessions[m].id
            && u.res.clients[m].written == D.WrittenBy(AnswersOf(steps), m)
            && (u.res.clients[m].flushed <==> D.Flush(m) in AnswersOf(steps))
            && D.Sent(u.res.clients[m]) == D.SentBy(AnswersOf(steps), m, u.res.clients[m].id)
  {
    NewSender(INIT, steps, m);
    RunInv(INIT, steps);
  }

  // ---- the two directions belong together ----

  ghost predicate Link(req: D.State, res: D.State, inboxes: nat) {
    && |res.clients| == |req.sessions| && res.clientSlots == req.serverSlots
    && (forall m :: 0 <= m < |req.sessions| ==> res.clients[m].id == req.sessions[m].id)
    && res.sessions == [] && res.serverSlots == map[]
    && inboxes == |req.clients|
  }

  ghost predicate Inv(s: State) {
    D.Inv(s.req) && D.Inv(s.res) && Link(s.req, s.res, |s.inboxes|)
  }

  lemma TakenFrame(res: D.State)
    requires D.WireInv(res) && D.LogInv(res) && D.Enabled(res, D.Receive)
    ensures res.received < res.sent <= |res.log| && DecodeFrame(res.wire).Got?
    ensures DecodeFrame(res.wire).frame == res.log[res.received].frame
    ensures D.WireInv(Taken(res, DecodeFrame(res.wire).rest))
  {
    D.NextFrame(res);
  }

  lemma SameParts(res: D.State, t: D.State)
    requires D.Inv(res) && t.clients == res.clients && t.clientSlots == res.clientSlots && t.log == res.log
    requires t.sessions == res.sessions == [] && t.serverSlots == res.serverSlots == map[] && D.WireInv(t)
    ensures D.Inv(t)
  {
    assert D.ClientsInv(t) by { assert forall i: nat :: D.LiveClient(t, i) <==> D.LiveClient(res, i); }
    D.SameLog(res, t);
  }

  lemma TakenInv(res: D.State)
    requires D.Inv(res) && D.Enabled(res, D.Receive) && res.sessions == [] && res.serverSlots == map[]
    ensures D.Inv(Taken(res, DecodeFrame(res.wire).rest))
    ensures D.Inv(Taken(res, DecodeFrame(res.wire).rest).(stopped := true))
  {
    TakenFrame(res);
    var t := Taken(res, DecodeFrame(res.wire).rest);
    SameParts(res, t);
    SameParts(res, t.(stopped := true));
  }

  // ---- every step keeps the invariant ----

  /** What receiving does to the server's sessions: it opens one in a free slot, or keeps them and the slots. */
  lemma ReceiveShape(req: D.State)
    requires D.Inv(req) && D.Enabled(req, D.Receive)
    ensures var t := D.Apply(req, D.Receive);
            && req.received < |req.log| && t.clients == req.clients && t.clientSlots == req.clientSlots
            && t.log == req.log && t.received == req.received + 1
            && var e := req.log[req.received];
               && |t.sessions| >= |req.sessions|
               && (t.stopped || if Opens(e.frame.kind) then |t.sessions| > |req.sessions|
                                else e.frame.id in req.serverSlots)
               && (forall m :: 0 <= m < |req.sessions| ==>
                     t.sessions[m].id == req.sessions[m].id && t.sessions[m].owner == req.sessions[m].owner)
               && (if |t.sessions| == |req.sessions| then t.serverSlots == req.serverSlots
                   else |t.sessions| == |req.sessions| + 1 && e.frame.id !in req.serverSlots && Opens(e.frame.kind)
                        && t.serverSlots == req.serverSlots[e.frame.id := |req.sessions|]
                        && t.sessions[|req.sessions|].id == e.frame.id
                        && t.sessions[|req.sessions|].owner == e.owner)
  {
    D.NextFrame(req);
  }

  lemma OpenedInv(res: D.State, id: Byte)
    requires D.Inv(res) && id !in res.clientSlots
    ensures D.Inv(Opened(res, id))
    ensures Opened(res, id) == res.(clients := res.clients + [D.Client(id, false, [], false, true)],
                                    clientSlots := res.clientSlots[id := |res.clients|])
  {
    D.StepInv(res, D.Create(id));
  }

  lemma OpenedLink(req: D.State, t: D.State, res: D.State, n: nat, id: Byte)
    requires Link(req, res, n) && id !in req.serverSlots && |t.clients| == |req.clients|
    requires |t.sessions| == |req.sessions| + 1 && t.sessions[|req.sessions|].id == id
    requires forall m :: 0 <= m < |req.sessions| ==> t.sessions[m].id == req.sessions[m].id
    requires t.serverSlots == req.serverSlots[id := |req.sessions|]
    ensures Link(t, Opened(res, id), n)
  {
  }

  lemma ReceiveLink(s: State)
    requires Inv(s) && D.Enabled(s.req, D.Receive)
    ensures Inv(RequestStep(s, D.Receive))
  {
    var t := D.Apply(s.req, D.Receive);
    ReceiveShape(s.req);
    D.StepInv(s.req, D.Receive);
    if |t.sessions| > |s.req.sessions| {
      var id := t.sessions[|s.req.sessions|].id;
      OpenedInv(s.res, id);
      OpenedLink(s.req, t, s.res, |s.inboxes|, id);
    }
  }

  lemma ClosedShape(res: D.State, id: Byte)
    requires D.ClientsInv(res) && id in res.clientSlots
    ensures var m := res.clientSlots[id];
            && D.LiveClient(res, m) && res.clients[m].id == id
            && Closed(res, id) == res.(clients := res.clients[m := res.clients[m].(live := false)],
                                       clientSlots := res.clientSlots - {id})
            && D.Enabled(res, D.Delete(m)) && Closed(res, id) == D.Apply(res, D.Delete(m))
  {
  }

  lemma FinishLink(s: State, id: Byte)
    requires Inv(s) && D.Enabled(s.req, D.Finish(id))
    ensures Inv(RequestStep(s, D.Finish(id)))
  {
    D.StepInv(s.req, D.Finish(id));
    ClosedShape(s.res, id);
    D.StepInv(s.res, D.Delete(s.res.clientSlots[id]));
  }

  lemma CreateLink(s: State, id: Byte)
    requires Inv(s) && D.Enabled(s.req, D.Create(id))
    ensures Inv(RequestStep(s, D.Create(id)))
  {
    D.StepInv(s.req, D.Create(id));
  }

  /** The other steps of the request direction change neither who is served nor how many streams there are. */
  predicate Plain(r: D.Step) {
    !r.Create? && !r.Receive? && !r.Finish?
  }

  lemma PlainShape(req: D.State, r: D.Step)
    requires D.Enabled(req, r) && Plain(r)
    ensures var t := D.Apply(req, r);
            && |t.clients| == |req.clients| && |t.sessions| == |req.sessions| && t.serverSlots == req.serverSlots
            && (forall m :: 0 <= m < |req.sessions| ==>
                  t.sessions[m].id == req.sessions[m].id && t.sessions[m].owner == req.sessions[m].owner)
            && (forall c :: 0 <= c < |req.clients| ==> t.clients[c].id == req.clients[c].id)
            && t.received == req.received && (req.stopped ==> t.stopped)
  {
  }

  lemma PlainLink(s: State, r: D.Step)
    requires Inv(s) && D.Enabled(s.req, r) && Plain(r)
    ensures Inv(s.(req := D.Apply(s.req, r)))
  {
    D.StepInv(s.req, r);
    PlainShape(s.req, r);
  }

  lemma RequestInv(s: State, r: D.Step)
    requires Inv(s) && D.Enabled(s.req, r)
    ensures Inv(RequestStep(s, r))
  {
    match r
    case Create(id) => CreateLink(s, id);
    case Receive => ReceiveLink(s);
    case Finish(id) => FinishLink(s, id);
    case _ => PlainLink(s, r);
  }

  lemma ResponseShape(res: D.State, r: D.Step)
    requires D.Enabled(res, r) && (r.Write? || r.Flush? || r.Transmit?)
    ensures var t := D.Apply(res, r);
            && |t.clients| == |res.clients| && t.clientSlots == res.clientSlots
            && (forall m :: 0 <= m < |res.clients| ==> t.clients[m].id == res.clients[m].id)
            && t.sessions == res.sessions && t.serverSlots == res.serverSlots
            && t.received == res.received && t.stopped == res.stopped
  {
  }

  lemma ResponseInv(s: State, r: D.Step)
    requires Inv(s) && D.Enabled(s.res, r) && (r.Write? || r.Flush? || r.Transmit?)
    ensures Inv(s.(res := D.Apply(s.res, r)))
  {
    D.StepInv(s.res, r);
    ResponseShape(s.res, r);
  }

  lemma DispatchInv(s: State)
    requires Inv(s) && Enabled(s, Receive)
    ensures Inv(Apply(s, Receive))
  {
    TakenInv(s.res);
  }

  lemma StepInv(s: State, step: Step)
    requires Inv(s) && Enabled(s, step)
    ensures Inv(Apply(s, step))
  {
    match step
    case Request(r) => RequestInv(s, r);
    case Respond(m, data) => ResponseInv(s, D.Write(m, data));
    case FlushResponse(m) => ResponseInv(s, D.Flush(m));
    case Transmit => ResponseInv(s, D.Transmit);
    case Receive => DispatchInv(s);
    case ReaderStops => SameParts(s.res, s.res.(stopped := true));
    case Read(c, len) =>
    case Disconnect(c) =>
  }

  lemma {:induction false} RunInv(s: State, steps: seq<Step>)
    requires Inv(s) && Run(s, steps).Some?
    ensures Inv(Run(s, steps).value)
    decreases |steps|
  {
    if steps != [] {
      StepInv(s, steps[0]);
      RunInv(Apply(s, steps[0]), steps[1..]);
    }
  }

  lemma ReachedInv(s: State)
    requires Reached(s)
    ensures Inv(s)
  {
    var steps :| Run(INIT, steps) == Some(s);
    RunInv(INIT, steps);
  }

  lemma {:induction false} RunAppend(s: State, steps: seq<Step>, step: Step)
    requires Run(s, steps).Some? && Enabled(Run(s, steps).value, step)
    ensures Run(s, steps + [step]) == Some(Apply(Run(s, steps).value, step))
    decreases |steps|
  {
    if steps == [] {
      assert ([] + [step])[1..] == [];
    } else {
      assert (steps + [step])[1..] == steps[1..] + [step];
      RunAppend(Apply(s, steps[0]), steps[1..], step);
    }
  }

  lemma ReachedNext(s: State, step: Step)
    requires Reached(s) && Enabled(s, step)
    ensures Reached(Apply(s, step))
  {
    var steps :| Run(INIT, steps) == Some(s);
    RunAppend(INIT, steps, step);
  }

  lemma {:induction false} ReachedRun(s: State, steps: seq<Step>)
    requires Reached(s) && Run(s, steps).Some?
    ensures Reached(Run(s, steps).value)
    decreases |steps|
  {
    if steps != [] {
      ReachedNext(s, steps[0]);
      ReachedRun(Apply(s, steps[0]), steps[1..]);
    }
  }

  // ---- what is fresh stays fresh ----

  lemma {:induction false} CanReadMore(a: set<Byte>, b: set<Byte>, fs: seq<Frame>)
    requires a <= b && CanRead(a, fs)
    ensures CanRead(b, fs)
    decreases |fs|
  {
    if fs != [] {
      if Opens(fs[0].kind) {
        CanReadMore(a + {fs[0].id}, b + {fs[0].id}, fs[1..]);
      } else {
        CanReadMore(a, b, fs[1..]);
      }
    }
  }

  /** Accepting a packet does not let the reader get any further than before. */
  lemma MayOpenBefore(req: D.State, t: D.State, k: nat, id: Byte)
    requires D.Inv(req) && D.Enabled(req, D.Receive) && t == D.Apply(req, D.Receive) && !t.stopped
    requires MayOpen(t, k, id)
    ensures MayOpen(req, k, id)
  {
    ReceiveShape(req);
    var fs := D.Frames(req.log[req.received..k]);
    assert req.log[req.received..k][1..] == t.log[t.received..k];
    assert fs[1..] == D.Frames(t.log[t.received..k]) && fs[0] == req.log[req.received].frame;
    if Opens(fs[0].kind) {
      assert t.serverSlots.Keys == req.serverSlots.Keys + {fs[0].id};
    }
  }

  /** What receiving a request does to the response direction. */
  lemma OpenedShape(s: State)
    requires Reached(s) && D.Enabled(s.req, D.Receive)
    ensures var t := RequestStep(s, D.Receive);
            && t.res.log == s.res.log && t.res.received == s.res.received && t.res.stopped == s.res.stopped
            && t.req == D.Apply(s.req, D.Receive) && t.inboxes == s.inboxes
  {
    ReachedInv(s);
    var t := D.Apply(s.req, D.Receive);
    ReceiveShape(s.req);
    if |t.sessions| > |s.req.sessions| {
      OpenedInv(s.res, t.sessions[|s.req.sessions|].id);
    }
  }

  lemma FreshReceive(s: State, id: Byte, c: nat)
    requires Reached(s) && D.Enabled(s.req, D.Receive) && Fresh(s.req, s.res, id, c)
    ensures var t := RequestStep(s, D.Receive); Fresh(t.req, t.res, id, c)
  {
    ReachedInv(s);
    var t := RequestStep(s, D.Receive);
    OpenedShape(s);
    if !s.res.stopped {
      FreshPacketsReceive(s, id, c);
      if !t.req.stopped {
        FreshOpened(s, id, c);
        FreshAccepted(s.req, id, c);
      }
    }
  }

  lemma FreshPacketsReceive(s: State, id: Byte, c: nat)
    requires Reached(s) && D.Enabled(s.req, D.Receive) && FreshPackets(s.req, s.res, id, c)
    ensures var t := RequestStep(s, D.Receive); FreshPackets(t.req, t.res, id, c)
  {
    ReachedInv(s);
    var t := RequestStep(s, D.Receive);
    ReceiveShape(s.req);
    if |D.Apply(s.req, D.Receive).sessions| > |s.req.sessions| {
      OpenedInv(s.res, t.req.sessions[|s.req.sessions|].id);
    }
    forall k: nat | Flying(t.req, t.res, k) ensures Flying(s.req, s.res, k) {}
  }

  lemma FreshAccepted(req: D.State, id: Byte, c: nat)
    requires D.Inv(req) && D.Enabled(req, D.Receive) && FreshRequests(req, id, c) && !D.Apply(req, D.Receive).stopped
    ensures FreshRequests(D.Apply(req, D.Receive), id, c)
  {
    var t := D.Apply(req, D.Receive);
    ReceiveShape(req);
    forall k: nat | MayOpen(t, k, id)
      ensures t.log[k].owner == c
    {
      MayOpenBefore(req, t, k, id);
    }
  }

  lemma FreshOpened(s: State, id: Byte, c: nat)
    requires Reached(s) && D.Enabled(s.req, D.Receive)
    requires FreshSession(s.req, s.res, id, c) && FreshRequests(s.req, id, c)
    ensures var t := RequestStep(s, D.Receive); FreshSession(t.req, t.res, id, c)
  {
    ReachedInv(s);
    var t := RequestStep(s, D.Receive);
    ReceiveShape(s.req);
    var e := s.req.log[s.req.received];
    if |t.req.sessions| > |s.req.sessions| {
      OpenedInv(s.res, e.frame.id);
      if e.frame.id == id {
        assert s.req.log[s.req.received..s.req.received] == [];
        assert MayOpen(s.req, s.req.received, id);
      }
    }
  }

  lemma FreshFinish(s: State, other: Byte, id: Byte, c: nat)
    requires Reached(s) && D.Enabled(s.req, D.Finish(other)) && Fresh(s.req, s.res, id, c)
    ensures var t := RequestStep(s, D.Finish(other)); Fresh(t.req, t.res, id, c)
  {
    ReachedInv(s);
    var t := RequestStep(s, D.Finish(other));
    ClosedShape(s.res, other);
    forall k: nat | MayOpen(t.req, k, id)
      ensures MayOpen(s.req, k, id)
    {
      CanReadMore(t.req.serverSlots.Keys, s.req.serverSlots.Keys, D.Frames(s.req.log[s.req.received..k]));
    }
  }

  /** What a write or a flush does to the log. */
  lemma PutShape(d: D.State, r: D.Step)
    requires D.Enabled(d, r) && (r.Write? || r.Flush?)
    ensures var t := D.Apply(d, r);
            && D.LiveClient(d, r.c) && !d.clients[r.c].flushed && t.sent == d.sent && t.stopped == d.stopped
            && (t.log == d.log ||
                (|t.log| == |d.log| + 1 && t.log[..|d.log|] == d.log
                 && t.log[|d.log|].owner == r.c && t.log[|d.log|].frame.id == d.clients[r.c].id))
            && (forall i :: 0 <= i < |d.clients| && d.clients[i].flushed ==> t.clients[i].flushed)
  {
    var x := d.clients[r.c];
    var x' := if r.Write? then x.(begun := true, written := x.written + r.data) else x.(flushed := true);
    D.HandsOverOne(x, x');
    D.PutLog(d, r.c, x');
  }

  lemma FreshGrows(req: D.State, t: D.State, res: D.State, id: Byte, c: nat)
    requires Fresh(req, res, id, c)
    requires t.sessions == req.sessions && t.serverSlots == req.serverSlots
    requires t.received == req.received <= |req.log| && t.stopped == req.stopped
    requires t.log == req.log || (|t.log| == |req.log| + 1 && t.log[..|req.log|] == req.log)
    requires |t.log| > |req.log| && t.log[|req.log|].frame.id == id ==> t.log[|req.log|].owner == c
    ensures Fresh(t, res, id, c)
  {
    forall k: nat | MayOpen(t, k, id)
      ensures k < |req.log| ==> MayOpen(req, k, id) && t.log[k] == req.log[k]
    {
      if k < |req.log| {
        assert t.log[t.received..k] == req.log[req.received..k];
      }
    }
  }

  lemma WriterIs(d: D.State, m: nat)
    requires D.ClientsInv(d) && D.LiveClient(d, m)
    ensures d.clients[m].id in d.clientSlots && d.clientSlots[d.clients[m].id] == m
  {
  }

  lemma FreshPut(s: State, r: D.Step, id: Byte, c: nat)
    requires Reached(s) && D.Enabled(s.req, r) && (r.Write? || r.Flush?) && Fresh(s.req, s.res, id, c)
    requires D.LiveClient(s.req, c) && s.req.clients[c].id == id
    ensures Fresh(D.Apply(s.req, r), s.res, id, c)
  {
    ReachedInv(s);
    PutSame(s.req, r);
    PutShape(s.req, r);
    WriterIs(s.req, r.c);
    WriterIs(s.req, c);
    FreshGrows(s.req, D.Apply(s.req, r), s.res, id, c);
  }

  lemma PutSame(d: D.State, r: D.Step)
    requires D.Enabled(d, r) && (r.Write? || r.Flush?)
    ensures var t := D.Apply(d, r);
            t.sessions == d.sessions && t.serverSlots == d.serverSlots && t.received == d.received && t.sent == d.sent
  {
  }

  lemma FreshAnswers(req: D.State, res: D.State, u: D.State, id: Byte, c: nat)
    requires Fresh(req, res, id, c)
    requires u.received == res.received && u.sent == res.sent <= |res.log| && u.stopped == res.stopped
    requires |u.clients| == |res.clients|
    requires forall i :: 0 <= i < |res.clients| && res.clients[i].flushed ==> u.clients[i].flushed
    requires u.log == res.log || (|u.log| == |res.log| + 1 && u.log[..|res.log|] == res.log)
    requires |u.log| > |res.log| && u.log[|res.log|].frame.id == id ==>
               Answering(req, res, id) && req.serverSlots[id] == u.log[|res.log|].owner
    ensures Fresh(req, u, id, c)
  {
    forall k: nat | Flying(req, u, k) && !res.stopped && u.log[k].frame.id == id
      ensures Serves(req, u.log[k].owner, c)
    {
      if k < |res.log| {
        assert u.log[k] == res.log[k] && Flying(req, res, k);
      }
    }
  }

  lemma FreshRespond(s: State, r: D.Step, id: Byte, c: nat)
    requires Reached(s) && D.Enabled(s.res, r) && (r.Write? || r.Flush?) && Fresh(s.req, s.res, id, c)
    ensures Fresh(s.req, D.Apply(s.res, r), id, c)
  {
    ReachedInv(s);
    PutShape(s.res, r);
    ResponseShape(s.res, r);
    WriterIs(s.res, r.c);
    FreshAnswers(s.req, s.res, D.Apply(s.res, r), id, c);
  }

  lemma FreshTransmit(s: State, id: Byte, c: nat)
    requires Reached(s) && Enabled(s, Transmit) && Fresh(s.req, s.res, id, c)
    ensures Fresh(s.req, D.Apply(s.res, D.Transmit), id, c)
  {
    ReachedInv(s);
    var u := D.Apply(s.res, D.Transmit);
    forall k: nat | Flying(s.req, u, k)
      ensures Flying(s.req, s.res, k)
    {
    }
  }

  lemma FreshTaken(req: D.State, res: D.State, rest: seq<Byte>, id: Byte, c: nat)
    requires Fresh(req, res, id, c)
    ensures Fresh(req, Taken(res, rest), id, c) && Fresh(req, Taken(res, rest).(stopped := true), id, c)
  {
    forall k: nat | Flying(req, Taken(res, rest), k)
      ensures Flying(req, res, k)
    {
    }
  }

  lemma FreshQuiet(s: State, r: D.Step, id: Byte, c: nat)
    requires D.Enabled(s.req, r) && Fresh(s.req, s.res, id, c)
    requires !r.Receive? && !r.Finish? && !r.Write? && !r.Flush?
    ensures Fresh(D.Apply(s.req, r), s.res, id, c)
  {
    var t := D.Apply(s.req, r);
    QuietShape(s.req, r);
    forall k: nat | MayOpen(t, k, id) ensures MayOpen(s.req, k, id) {}
    forall k: nat | Flying(t, s.res, k) ensures Flying(s.req, s.res, k) {}
  }

  lemma QuietShape(req: D.State, r: D.Step)
    requires D.Enabled(req, r) && !r.Receive? && !r.Finish? && !r.Write? && !r.Flush?
    ensures var t := D.Apply(req, r);
            && t.log == req.log && t.received == req.received && t.serverSlots == req.serverSlots
            && |t.sessions| == |req.sessions| && (req.stopped ==> t.stopped)
            && forall m :: 0 <= m < |req.sessions| ==> t.sessions[m].owner == req.sessions[m].owner
  {
  }

  lemma FreshRequest(s: State, r: D.Step, id: Byte, c: nat)
    requires Reached(s) && D.Enabled(s.req, r) && Fresh(s.req, s.res, id, c)
    requires D.LiveClient(s.req, c) && s.req.clients[c].id == id
    ensures var t := RequestStep(s, r); Fresh(t.req, t.res, id, c)
  {
    match r
    case Receive => FreshReceive(s, id, c);
    case Finish(other) => FreshFinish(s, other, id, c);
    case Write(_, _) => FreshPut(s, r, id, c);
    case Flush(_) => FreshPut(s, r, id, c);
    case _ => FreshQuiet(s, r, id, c);
  }

  /** What is to come for a live client stream stays its own, whatever step is taken. */
  lemma FreshStep(s: State, step: Step, c: nat)
    requires Reached(s) && Enabled(s, step) && D.LiveClient(s.req, c)
    requires Fresh(s.req, s.res, s.req.clients[c].id, c)
    ensures var t := Apply(s, step); Fresh(t.req, t.res, s.req.clients[c].id, c)
  {
    var id := s.req.clients[c].id;
    match step
    case Request(r) => FreshRequest(s, r, id, c);
    case Respond(m, data) => FreshRespond(s, D.Write(m, data), id, c);
    case FlushResponse(m) => FreshRespond(s, D.Flush(m), id, c);
    case Transmit => FreshTransmit(s, id, c);
    case Receive => FreshTaken(s.req, s.res, DecodeFrame(s.res.wire).rest, id, c);
    case ReaderStops =>
    case Read(_, _) =>
    case Disconnect(_) =>
  }

  // ---- a stream that starts fresh is never given anything else ----

  ghost predicate Kept(s: State, c: nat) {
    && c < |s.req.clients| && Own(s, c)
    && (D.LiveClient(s.req, c) ==> Fresh(s.req, s.res, s.req.clients[c].id, c))
  }

  /** Streams are not brought back to life, and sessions keep whom they serve. */
  lemma LifeShape(s: State, step: Step, c: nat)
    requires Reached(s) && Enabled(s, step) && c < |s.req.clients|
    ensures var t := Apply(s, step);
            && c < |t.req.clients| && t.req.clients[c].id == s.req.clients[c].id
            && (D.LiveClient(t.req, c) ==> D.LiveClient(s.req, c))
            && (forall m: nat :: Serves(s.req, m, c) ==> Serves(t.req, m, c))
  {
    ReachedInv(s);
    if step.Request? {
      RequestLife(s.req, step.step, c);
    }
  }

  lemma RequestLife(req: D.State, r: D.Step, c: nat)
    requires D.Inv(req) && D.Enabled(req, r) && c < |req.clients|
    ensures var t := D.Apply(req, r);
            && c < |t.clients| && t.clients[c].id == req.clients[c].id
            && (D.LiveClient(t, c) ==> D.LiveClient(req, c))
            && (forall m: nat :: Serves(req, m, c) ==> Serves(t, m, c))
  {
    if r.Receive? {
      ReceiveShape(req);
    }
  }

  lemma OwnDispatch(s: State, c: nat)
    requires Reached(s) && Enabled(s, Receive) && Kept(s, c)
    ensures Own(Apply(s, Receive), c)
  {
    ReachedInv(s);
    TakenFrame(s.res);
    var k := s.res.received;
    var id := s.res.log[k].frame.id;
    if id in s.req.clientSlots && s.req.clientSlots[id] == c {
      assert D.LiveClient(s.req, c) && s.req.clients[c].id == id;
      assert Flying(s.req, s.res, k);
    }
  }

  /** Only dispatching pushes anything. */
  lemma PushedSame(s: State, step: Step, c: nat)
    requires Reached(s) && Enabled(s, step) && !step.Receive? && c < |s.inboxes|
    ensures var t := Apply(s, step);
            |t.inboxes| >= |s.inboxes| && t.inboxes[c].pushed == s.inboxes[c].pushed
  {
    ReachedInv(s);
    match step
    case Request(r) => RequestInboxes(s, r);
    case Read(_, _) =>
    case Disconnect(_) =>
    case _ =>
  }

  lemma RequestInboxes(s: State, r: D.Step)
    requires D.Enabled(s.req, r)
    ensures var t := RequestStep(s, r);
            |t.inboxes| >= |s.inboxes| && t.inboxes[..|s.inboxes|] == s.inboxes && t.res.stopped == s.res.stopped
            && t.req == D.Apply(s.req, r)
  {
  }

  lemma OwnStep(s: State, step: Step, c: nat)
    requires Reached(s) && Enabled(s, step) && Kept(s, c)
    ensures Own(Apply(s, step), c)
  {
    ReachedInv(s);
    LifeShape(s, step, c);
    if step.Receive? {
      OwnDispatch(s, c);
    } else {
      PushedSame(s, step, c);
    }
  }

  lemma KeptStep(s: State, step: Step, c: nat)
    requires Reached(s) && Enabled(s, step) && Kept(s, c)
    ensures Kept(Apply(s, step), c)
  {
    LifeShape(s, step, c);
    OwnStep(s, step, c);
    if D.LiveClient(Apply(s, step).req, c) {
      FreshStep(s, step, c);
    }
  }

  lemma {:induction false} KeptRun(s: State, steps: seq<Step>, c: nat)
    requires Reached(s) && Run(s, steps).Some? && Kept(s, c)
    ensures Kept(Run(s, steps).value, c)
    decreases |steps|
  {
    if steps != [] {
      ReachedNext(s, steps[0]);
      KeptStep(s, steps[0], c);
      KeptRun(Apply(s, steps[0]), steps[1..], c);
    }
  }

  lemma KeptCreate(s: State, id: Byte)
    requires Reached(s) && Enabled(s, Request(D.Create(id))) && !Pending(s, id)
    ensures Kept(Apply(s, Request(D.Create(id))), |s.req.clients|)
  {
    ReachedInv(s);
    var t := Apply(s, Request(D.Create(id)));
    assert forall k: nat :: MayOpen(t.req, k, id) <==> MayOpen(s.req, k, id);
    assert forall k: nat :: Flying(t.req, t.res, k) <==> Flying(s.req, s.res, k);
  }

  // ---- a stream that does not may be ----

  ghost predicate Leads(s: State, t: State) {
    exists steps :: Run(s, steps) == Some(t)
  }

  lemma LeadsSelf(s: State)
    ensures Leads(s, s)
  {
    assert Run(s, []) == Some(s);
  }

  lemma LeadsOn(s: State, t: State, step: Step) returns (u: State)
    requires Leads(s, t) && Reached(t) && Enabled(t, step)
    ensures Leads(s, u) && Reached(u) && u == Apply(t, step)
  {
    LeadsNext(s, t, step);
    ReachedNext(t, step);
    u := Apply(t, step);
  }

  lemma LeadsNext(s: State, t: State, step: Step)
    requires Leads(s, t) && Enabled(t, step)
    ensures Leads(s, Apply(t, step))
  {
    var steps :| Run(s, steps) == Some(t);
    RunAppend(s, steps, step);
  }

  /** Client stream c is live with this id and may still be given a packet of a session that serves another. */
  ghost predicate Threatened(s: State, id: Byte, c: nat, k: nat) {
    && Reached(s) && D.LiveClient(s.req, c) && s.req.clients[c].id == id && !s.res.stopped
    && Flying(s.req, s.res, k) && s.res.log[k].frame.id == id && !Serves(s.req, s.res.log[k].owner, c)
  }

  /** The packet arrives: those before it are accepted because their ids are taken, if they are free. */
  lemma {:induction false} StaleArrives(s0: State, s: State, id: Byte, c: nat, k: nat) returns (t: State)
    requires Leads(s0, s) && Threatened(s, id, c, k)
    ensures Leads(s0, t) && !Own(t, c)
    decreases k - s.res.received
  {
    t := MakeReady(s0, s, id, c, k);
    ReachedInv(t);
    TakenFrame(t.res);
    if k == t.res.received {
      t := LastArrives(s0, t, id, c, k);
    } else {
      t := OneArrives(s0, t, id, c, k);
      t := StaleArrives(s0, t, id, c, k);
    }
  }

  /** The next packet is on the wire, and its id is taken. */
  ghost predicate NextReady(s: State) {
    && Enabled(s, Receive) && s.res.received < |s.res.log|
    && s.res.log[s.res.received].frame.id in s.req.clientSlots
  }

  lemma OnWire(res: D.State)
    requires D.WireInv(res) && D.LogInv(res) && res.received < res.sent && !res.stopped
    ensures D.Enabled(res, D.Receive)
  {
    var flying := D.Frames(res.log[res.received..res.sent]);
    assert D.LogAt(res, res.received);
    FrameRoundTrip(flying[0], EncodeFrames(flying[1..]));
  }

  lemma MakeReady(s0: State, s: State, id: Byte, c: nat, k: nat) returns (t: State)
    requires Leads(s0, s) && Threatened(s, id, c, k)
    ensures Leads(s0, t) && Threatened(t, id, c, k) && NextReady(t) && t.res.received == s.res.received
  {
    ReachedInv(s);
    t := s;
    if t.res.sent == t.res.received {
      t := SendNext(s0, t, id, c, k);
    }
    ReachedInv(t);
    OnWire(t.res);
    var next := t.res.log[t.res.received].frame.id;
    if next !in t.req.clientSlots {
      t := TakeId(s0, t, next, id, c, k);
    }
  }

  lemma SendNext(s0: State, s: State, id: Byte, c: nat, k: nat) returns (t: State)
    requires Leads(s0, s) && Threatened(s, id, c, k) && s.res.sent == s.res.received
    ensures Leads(s0, t) && Threatened(t, id, c, k) && t.res.received == s.res.received < t.res.sent
  {
    ReachedInv(s);
    t := LeadsOn(s0, s, Transmit);
  }

  lemma TakeId(s0: State, s: State, next: Byte, id: Byte, c: nat, k: nat) returns (t: State)
    requires Leads(s0, s) && Threatened(s, id, c, k) && next !in s.req.clientSlots
    ensures Leads(s0, t) && Threatened(t, id, c, k) && t.res == s.res && next in t.req.clientSlots
  {
    ReachedInv(s);
    CreateShape(s, next, c);
    t := LeadsOn(s0, s, Request(D.Create(next)));
    assert Flying(t.req, t.res, k) <==> Flying(s.req, s.res, k);
  }

  lemma CreateShape(s: State, next: Byte, c: nat)
    requires D.LiveClient(s.req, c) && D.Enabled(s.req, D.Create(next))
    ensures var t := RequestStep(s, D.Create(next));
            && D.LiveClient(t.req, c) && t.req.clients[c].id == s.req.clients[c].id && next in t.req.clientSlots
            && t.req.sessions == s.req.sessions && t.req.stopped == s.req.stopped && t.res == s.res
  {
  }

  lemma OneArrives(s0: State, s: State, id: Byte, c: nat, k: nat) returns (t: State)
    requires Leads(s0, s) && Threatened(s, id, c, k) && NextReady(s) && k > s.res.received
    ensures Leads(s0, t) && Threatened(t, id, c, k) && t.res.received == s.res.received + 1
  {
    ReachedInv(s);
    TakenFrame(s.res);
    t := LeadsOn(s0, s, Receive);
  }

  lemma LastArrives(s0: State, s: State, id: Byte, c: nat, k: nat) returns (t: State)
    requires Leads(s0, s) && Threatened(s, id, c, k) && NextReady(s) && k == s.res.received
    ensures Leads(s0, t) && !Own(t, c)
  {
    ReachedInv(s);
    WriterIs(s.req, c);
    DispatchShape(s, c);
    t := LeadsOn(s0, s, Receive);
    var pushed := t.inboxes[c].pushed;
    assert pushed[|pushed| - 1] == s.res.log[k];
  }

  /** Client stream c is live with this id, and a session that serves another has the id and has not flushed. */
  ghost predicate Answerable(s: State, id: Byte, c: nat) {
    && Reached(s) && D.LiveClient(s.req, c) && s.req.clients[c].id == id && !s.res.stopped && !s.req.stopped
    && Answering(s.req, s.res, id) && !Serves(s.req, s.req.serverSlots[id], c)
  }

  lemma FlushGrows(d: D.State, m: nat)
    requires D.Enabled(d, D.Flush(m))
    ensures |D.Apply(d, D.Flush(m)).log| == |d.log| + 1
  {
    var x := d.clients[m];
    var x' := x.(flushed := true);
    assert D.Sent(x') == D.Sent(x) + [D.Sent(x')[|D.Sent(x)|]];
    D.PutLog(d, m, x');
  }

  lemma BeginAnswer(s0: State, s: State, id: Byte, c: nat) returns (t: State)
    requires Leads(s0, s) && Answerable(s, id, c)
    ensures Leads(s0, t) && Answerable(t, id, c) && t.req == s.req
    ensures D.Enabled(t.res, D.Flush(s.req.serverSlots[id]))
  {
    ReachedInv(s);
    var m := s.req.serverSlots[id];
    assert s.res.clients[m].written + [] == s.res.clients[m].written;
    assert D.LiveClient(s.res, m);
    t := LeadsOn(s0, s, Respond(m, []));
  }

  lemma EndAnswer(s0: State, s: State, id: Byte, c: nat) returns (t: State, k: nat)
    requires Leads(s0, s) && Answerable(s, id, c) && D.Enabled(s.res, D.Flush(s.req.serverSlots[id]))
    ensures Leads(s0, t) && Threatened(t, id, c, k)
  {
    ReachedInv(s);
    var m := s.req.serverSlots[id];
    k := |s.res.log|;
    PutShape(s.res, D.Flush(m));
    ResponseShape(s.res, D.Flush(m));
    FlushGrows(s.res, m);
    t := LeadsOn(s0, s, FlushResponse(m));
  }

  lemma StaleAnswer(s0: State, s: State, id: Byte, c: nat) returns (t: State)
    requires Leads(s0, s) && Answerable(s, id, c)
    ensures Leads(s0, t) && !Own(t, c)
  {
    t := BeginAnswer(s0, s, id, c);
    var k;
    t, k := EndAnswer(s0, t, id, c);
    t := StaleArrives(s0, t, id, c, k);
  }

  /** Client stream c is live with this id, and request packet k of another stream may still open a session. */
  ghost predicate Lurking(s: State, id: Byte, c: nat, k: nat) {
    && Reached(s) && D.LiveClient(s.req, c) && s.req.clients[c].id == id && !s.res.stopped && !s.req.stopped
    && MayOpen(s.req, k, id) && s.req.log[k].owner != c
  }

  /** The next request packet is on the wire, and if it opens a session its slot is free. */
  ghost predicate ServerReady(s: State) {
    && D.Enabled(s.req, D.Receive) && s.req.received < |s.req.log|
    && var f := s.req.log[s.req.received].frame; Opens(f.kind) ==> f.id !in s.req.serverSlots
  }

  lemma SendRequest(s0: State, s: State, id: Byte, c: nat, k: nat) returns (t: State)
    requires Leads(s0, s) && Lurking(s, id, c, k) && s.req.sent == s.req.received
    ensures Leads(s0, t) && Lurking(t, id, c, k) && t.req.received == s.req.received < t.req.sent
  {
    ReachedInv(s);
    t := LeadsOn(s0, s, Request(D.Transmit));
  }

  lemma CanReadFreed(taken: set<Byte>, fs: seq<Frame>)
    requires CanRead(taken, fs) && (fs != [] ==> Opens(fs[0].kind))
    ensures fs != [] ==> CanRead(taken - {fs[0].id}, fs)
  {
    if fs != [] {
      CanReadMore(taken + {fs[0].id}, taken - {fs[0].id} + {fs[0].id}, fs[1..]);
    }
  }

  lemma FreedMayOpen(req: D.State, k: nat, id: Byte)
    requires MayOpen(req, k, id)
    requires var f := req.log[req.received].frame; Opens(f.kind) && f.id in req.serverSlots
    ensures var t := D.Apply(req, D.Finish(req.log[req.received].frame.id));
            && MayOpen(t, k, id) && req.log[req.received].frame.id !in t.serverSlots
            && t.(serverSlots := req.serverSlots) == req
  {
    var f := req.log[req.received].frame;
    var t := D.Apply(req, D.Finish(f.id));
    var fs := D.Frames(req.log[req.received..k]);
    CanReadFreed(req.serverSlots.Keys, fs);
    assert t.serverSlots.Keys == req.serverSlots.Keys - {f.id};
  }

  lemma FreeSlot(s0: State, s: State, id: Byte, c: nat, k: nat) returns (t: State)
    requires Leads(s0, s) && Lurking(s, id, c, k)
    requires var f := s.req.log[s.req.received].frame; Opens(f.kind) && f.id in s.req.serverSlots
    ensures Leads(s0, t) && Lurking(t, id, c, k)
    ensures t.req.(serverSlots := s.req.serverSlots) == s.req
    ensures s.req.log[s.req.received].frame.id !in t.req.serverSlots
  {
    ReachedInv(s);
    FreedMayOpen(s.req, k, id);
    RequestInboxes(s, D.Finish(s.req.log[s.req.received].frame.id));
    t := LeadsOn(s0, s, Request(D.Finish(s.req.log[s.req.received].frame.id)));
  }

  lemma MakeServerReady(s0: State, s: State, id: Byte, c: nat, k: nat) returns (t: State)
    requires Leads(s0, s) && Lurking(s, id, c, k)
    ensures Leads(s0, t) && Lurking(t, id, c, k) && ServerReady(t) && t.req.received == s.req.received
  {
    ReachedInv(s);
    t := s;
    if t.req.sent == t.req.received {
      t := SendRequest(s0, t, id, c, k);
    }
    ReachedInv(t);
    OnWire(t.req);
    var f := t.req.log[t.req.received].frame;
    if Opens(f.kind) && f.id in t.req.serverSlots {
      t := FreeSlot(s0, t, id, c, k);
    }
  }

  /** The server's reader accepts the next packet and gets closer to packet k. */
  lemma OneAccepted(s0: State, s: State, id: Byte, c: nat, k: nat) returns (t: State)
    requires Leads(s0, s) && Lurking(s, id, c, k) && ServerReady(s) && k > s.req.received
    ensures Leads(s0, t) && Lurking(t, id, c, k) && t.req.received == s.req.received + 1
  {
    ReachedInv(s);
    MayOpenAfter(s.req, k, id);
    t := LeadsOn(s0, s, Request(D.Receive));
    LifeShape(s, Request(D.Receive), c);
    OpenedKeepsReader(s);
  }

  lemma OpenedKeepsReader(s: State)
    requires Reached(s) && D.Enabled(s.req, D.Receive)
    ensures RequestStep(s, D.Receive).res.stopped == s.res.stopped
  {
    ReachedInv(s);
    ReceiveShape(s.req);
    if |D.Apply(s.req, D.Receive).sessions| > |s.req.sessions| {
      OpenedInv(s.res, D.Apply(s.req, D.Receive).sessions[|s.req.sessions|].id);
    }
  }

  lemma MayOpenAfter(req: D.State, k: nat, id: Byte)
    requires D.Inv(req) && D.Enabled(req, D.Receive) && !req.stopped && MayOpen(req, k, id) && k > req.received
    requires var f := req.log[req.received].frame; Opens(f.kind) ==> f.id !in req.serverSlots
    ensures var t := D.Apply(req, D.Receive); MayOpen(t, k, id) && !t.stopped
    ensures D.Apply(req, D.Receive).clients == req.clients && D.Apply(req, D.Receive).clientSlots == req.clientSlots
    ensures D.Apply(req, D.Receive).log == req.log && D.Apply(req, D.Receive).received == req.received + 1
  {
    var t := D.Apply(req, D.Receive);
    ReceiveShape(req);
    D.NextFrame(req);
    var fs := D.Frames(req.log[req.received..k]);
    assert req.log[req.received..k][1..] == t.log[t.received..k];
    assert fs[1..] == D.Frames(t.log[t.received..k]) && fs[0] == req.log[req.received].frame;
    if Opens(fs[0].kind) {
      assert t.serverSlots.Keys == req.serverSlots.Keys + {fs[0].id};
    }
  }

  /** Packet k opens its session. */
  lemma LastAccepted(s0: State, s: State, id: Byte, c: nat, k: nat) returns (t: State)
    requires Leads(s0, s) && Lurking(s, id, c, k) && ServerReady(s) && k == s.req.received
    ensures Leads(s0, t) && Answerable(t, id, c)
  {
    ReachedInv(s);
    AcceptsOpening(s.req);
    OpenedInv(s.res, id);
    LifeShape(s, Request(D.Receive), c);
    t := LeadsOn(s0, s, Request(D.Receive));
  }

  lemma AcceptsOpening(req: D.State)
    requires D.Inv(req) && D.Enabled(req, D.Receive) && !req.stopped && req.received < |req.log|
    requires var f := req.log[req.received].frame; Opens(f.kind) && f.id !in req.serverSlots
    ensures var t, e, m := D.Apply(req, D.Receive), req.log[req.received], |req.sessions|;
            && !t.stopped && |t.sessions| == m + 1 && t.serverSlots == req.serverSlots[e.frame.id := m]
            && t.sessions[m].owner == e.owner && t.sessions[m].id == e.frame.id
            && t.clients == req.clients && t.clientSlots == req.clientSlots
  {
    D.NextFrame(req);
  }

  lemma {:induction false} StaleRequest(s0: State, s: State, id: Byte, c: nat, k: nat) returns (t: State)
    requires Leads(s0, s) && Lurking(s, id, c, k)
    ensures Leads(s0, t) && !Own(t, c)
    decreases k - s.req.received
  {
    t := MakeServerReady(s0, s, id, c, k);
    if k == t.req.received {
      t := LastAccepted(s0, t, id, c, k);
      t := StaleAnswer(s0, t, id, c);
    } else {
      t := OneAccepted(s0, t, id, c, k);
      t := StaleRequest(s0, t, id, c, k);
    }
  }

  // ---- exactly when an id may be taken again ----

  lemma NewIsNotServed(s: State, id: Byte, m: nat)
    requires Reached(s) && m < |s.req.sessions|
    ensures !Serves(s.req, m, |s.req.clients|)
  {
    ReachedInv(s);
    assert D.SessionInv(s.req, m);
  }

  /** If a packet with the id is still to come, the new stream may be given it. */
  lemma TakenTooEarly(s: State, id: Byte) returns (t: State)
    requires Reached(s) && Enabled(s, Request(D.Create(id))) && Pending(s, id)
    ensures Leads(Apply(s, Request(D.Create(id))), t) && !Own(t, |s.req.clients|)
  {
    ReachedInv(s);
    var s0, c := Apply(s, Request(D.Create(id))), |s.req.clients|;
    ReachedNext(s, Request(D.Create(id)));
    LeadsSelf(s0);
    if k: nat :| Flying(s.req, s.res, k) && s.res.log[k].frame.id == id {
      assert D.LogAt(s.res, k);
      NewIsNotServed(s, id, s.res.log[k].owner);
      t := StaleArrives(s0, s0, id, c, k);
    } else if Answering(s.req, s.res, id) {
      NewIsNotServed(s, id, s.req.serverSlots[id]);
      t := StaleAnswer(s0, s0, id, c);
    } else {
      var k: nat :| MayOpen(s.req, k, id);
      assert D.LogAt(s.req, k);
      t := StaleRequest(s0, s0, id, c, k);
    }
  }

  lemma NotAlwaysOwn(t: State, u: State, c: nat)
    requires Leads(t, u) && !Own(u, c)
    ensures !AlwaysOwn(t, c)
  {
    var after :| Run(t, after) == Some(u);
    assert !Own(Run(t, after).value, c);
  }

  lemma KeptAlways(t: State, c: nat)
    requires Reached(t) && Kept(t, c)
    ensures AlwaysOwn(t, c)
  {
    forall after | Run(t, after).Some?
      ensures Own(Run(t, after).value, c)
    {
      KeptRun(t, after, c);
    }
  }

  lemma IdIsSafe(s: State, id: Byte)
    requires Reached(s) && Enabled(s, Request(D.Create(id)))
    ensures AlwaysOwn(Apply(s, Request(D.Create(id))), |s.req.clients|) <==> !Pending(s, id)
  {
    if Pending(s, id) {
      var u := TakenTooEarly(s, id);
      NotAlwaysOwn(Apply(s, Request(D.Create(id))), u, |s.req.clients|);
    } else {
      KeptCreate(s, id);
      ReachedNext(s, Request(D.Create(id)));
      KeptAlways(Apply(s, Request(D.Create(id))), |s.req.clients|);
    }
  }

  lemma {:induction false} RunOn(s: State, before: seq<Step>, after: seq<Step>)
    requires Run(s, before).Some?
    ensures Run(s, before + after) == Run(Run(s, before).value, after)
    decreases |before|
  {
    if before == [] {
      assert before + after == after;
    } else {
      assert (before + after)[1..] == before[1..] + after;
      RunOn(Apply(s, before[0]), before[1..], after);
    }
  }

  lemma DeletedEarly() returns (s: State)
    ensures Leads(INIT, s) && Reached(s) && Pending(s, 0) && |s.req.clients| == 1 && 0 !in s.req.clientSlots
  {
    s := FlushedOnce();
    s := LeadsOn(INIT, s, Request(D.Delete(0)));
    assert s.req.log[0..0] == [];
    assert MayOpen(s.req, 0, 0);
  }

  lemma FlushedOnce() returns (s: State)
    ensures Leads(INIT, s) && Reached(s) && D.LiveClient(s.req, 0) && |s.req.clients| == 1 && s.req.clients[0].id == 0
    ensures !s.req.stopped && !s.res.stopped && s.req.received == 0 && s.req.clientSlots == map[0 := 0]
    ensures |s.req.log| == 1 && Opens(s.req.log[0].frame.kind) && s.req.log[0].frame.id == 0
  {
    s := WrittenOnce();
    FlushGrows(s.req, 0);
    PutShape(s.req, D.Flush(0));
    s := LeadsOn(INIT, s, Request(D.Flush(0)));
    assert D.LogAt(s.req, 0);
  }

  lemma WrittenOnce() returns (s: State)
    ensures Leads(INIT, s) && Reached(s) && s.req.clients == [D.Client(0, true, [], false, true)] && s.req.log == []
    ensures !s.req.stopped && !s.res.stopped && s.req.received == 0 && s.req.clientSlots == map[0 := 0]
  {
    LeadsSelf(INIT);
    s := LeadsOn(INIT, INIT, Request(D.Create(0)));
    EmptyWrite(s.req);
    s := LeadsOn(INIT, s, Request(D.Write(0, [])));
  }

  lemma EmptyWrite(d: D.State)
    requires d.clients == [D.Client(0, false, [], false, true)]
    ensures D.Enabled(d, D.Write(0, []))
    ensures D.Apply(d, D.Write(0, [])) == d.(clients := [D.Client(0, true, [], false, true)])
  {
    var x := D.Client(0, true, [], false, true);
    assert D.Sent(x) == D.Sent(d.clients[0]);
    D.PutLog(d, 0, x);
  }

  // ---- what a stream that starts fresh reads ----

  /** The packets pushed to a client stream are those its session has sent, as far as they have been read, in order;
      all of them, while it lives and the client's reader runs. */
  ghost predicate Ordered(req: D.State, res: D.State, x: Inbox, c: nat) {
    res.received <= |res.log| &&
    forall m: nat :: Serves(req, m, c) ==>
      && D.Frames(x.pushed) <= D.Of(res.log[..res.received], m)
      && (D.LiveClient(req, c) && !res.stopped ==> D.Frames(x.pushed) == D.Of(res.log[..res.received], m))
  }

  lemma OrderedSame(req: D.State, res: D.State, t: D.State, u: D.State, x: Inbox, y: Inbox, c: nat)
    requires Ordered(req, res, x, c) && y.pushed == x.pushed
    requires u.received == res.received <= |u.log| && u.log[..u.received] == res.log[..res.received]
    requires D.LiveClient(t, c) && !u.stopped ==> D.LiveClient(req, c) && !res.stopped
    requires forall m: nat :: Serves(t, m, c) ==> Serves(req, m, c)
    ensures Ordered(t, u, y, c)
  {
  }

  lemma OrderedFirst(t: D.State, u: D.State, y: Inbox, n: nat, c: nat)
    requires forall m: nat :: Serves(t, m, c) ==> m == n
    requires u.received <= |u.log| && D.Of(u.log[..u.received], n) == [] && y.pushed == []
    ensures Ordered(t, u, y, c)
  {
    assert D.Frames(y.pushed) == [];
  }

  /** A session that opens for c is its first, so nothing has been pushed yet. */
  lemma NothingPushed(s: State, t: D.State, n: nat, c: nat)
    requires D.Inv(t) && Serves(t, n, c) && n == |s.req.sessions| && Own(s, c) && c < |s.inboxes|
    requires forall m: nat :: Serves(s.req, m, c) ==> Serves(t, m, c)
    ensures s.inboxes[c].pushed == []
  {
    var pushed := s.inboxes[c].pushed;
    assert pushed == [] || Serves(s.req, pushed[0].owner, c);
    FirstSession(t, n, c);
  }

  lemma OrderedOpened(s: State, c: nat)
    requires Reached(s) && D.Enabled(s.req, D.Receive) && c < |s.req.clients| && c < |s.inboxes|
    requires Ordered(s.req, s.res, s.inboxes[c], c) && Own(s, c)
    ensures var t := RequestStep(s, D.Receive); Ordered(t.req, t.res, t.inboxes[c], c)
  {
    ReachedInv(s);
    var t := RequestStep(s, D.Receive);
    var n := |s.req.sessions|;
    OpenedShape(s);
    RequestLife(s.req, D.Receive, c);
    D.StepInv(s.req, D.Receive);
    if Serves(t.req, n, c) {
      FirstSession(t.req, n, c);
      NothingPushed(s, t.req, n, c);
      NothingSent(s.res, n);
      OrderedFirst(t.req, t.res, t.inboxes[c], n, c);
    } else {
      ServesBefore(s.req, c);
      OrderedSame(s.req, s.res, t.req, t.res, s.inboxes[c], t.inboxes[c], c);
    }
  }

  lemma ServesBefore(req: D.State, c: nat)
    requires D.Inv(req) && D.Enabled(req, D.Receive)
    ensures var t := D.Apply(req, D.Receive);
            forall m: nat :: Serves(t, m, c) && m != |req.sessions| ==> Serves(req, m, c)
  {
    ReceiveShape(req);
  }

  lemma FirstSession(req: D.State, n: nat, c: nat)
    requires D.Inv(req) && Serves(req, n, c)
    ensures forall m: nat :: Serves(req, m, c) ==> m == n
  {
  }

  lemma NothingSent(res: D.State, m: nat)
    requires D.LogInv(res) && m >= |res.clients| && res.received <= |res.log|
    ensures D.Of(res.log[..res.received], m) == []
  {
    var log := res.log[..res.received];
    forall k | 0 <= k < |log| ensures log[k].owner != m { assert D.LogAt(res, k); }
    D.OfUnknown(log, m);
  }

  /** Whose packet is read next, and what that does to what has been read of a session. */
  lemma NextOf(s: State, m: nat)
    requires Reached(s) && Enabled(s, Receive) && m < |s.req.sessions|
    ensures s.res.received < |s.res.log|
    ensures var e := s.res.log[s.res.received];
            && D.Of(s.res.log[..s.res.received + 1], m) ==
                 D.Of(s.res.log[..s.res.received], m) + (if e.owner == m then [e.frame] else [])
            && (e.owner == m ==> e.frame.id == s.req.sessions[m].id)
            && (e.owner == m ==> (Opens(e.frame.kind) <==> D.Of(s.res.log[..s.res.received], m) == []))
  {
    ReachedInv(s);
    TakenFrame(s.res);
    var k := s.res.received;
    var log, e := s.res.log[..k], s.res.log[k];
    assert s.res.log[..k + 1] == log + [e];
    D.OfAppend(log, e, m);
    assert D.LogAt(s.res, k);
    if !Opens(e.frame.kind) {
      LastMeansOf(log, e.frame.id, e.owner);
    }
  }

  lemma {:induction false} LastMeansOf(log: seq<D.Entry>, id: Byte, m: nat)
    requires D.Last(log, id) == Some(m)
    ensures D.Of(log, m) != []
  {
    var last := |log| - 1;
    if log[last].frame.id != id {
      LastMeansOf(log[..last], id, m);
    }
  }

  /** The client stream a session serves has the session's id. */
  lemma ServedId(s: State, m: nat, c: nat)
    requires Reached(s) && Serves(s.req, m, c)
    ensures c < |s.req.clients| && s.req.clients[c].id == s.req.sessions[m].id
  {
    ReachedInv(s);
    assert D.SessionInv(s.req, m);
  }

  /** What a packet that is not for c does to c: nothing, except that the reader may stop at it. */
  lemma DispatchOther(s: State, c: nat)
    requires Reached(s) && Enabled(s, Receive) && s.res.received < |s.res.log| && c < |s.inboxes| && !NextGoesTo(s, c)
    ensures var t := Apply(s, Receive);
            && t.req == s.req && |t.inboxes| == |s.inboxes| && t.inboxes[c] == s.inboxes[c]
            && t.res.log == s.res.log && t.res.received == s.res.received + 1
            && (!t.res.stopped ==> s.res.log[s.res.received].frame.id in s.req.clientSlots)
  {
    ReachedInv(s);
    TakenFrame(s.res);
  }

  lemma OtherPrefix(s: State, c: nat, u: D.State, m: nat)
    requires Reached(s) && Enabled(s, Receive) && c < |s.inboxes| && Ordered(s.req, s.res, s.inboxes[c], c)
    requires s.res.received < |s.res.log| && Serves(s.req, m, c)
    requires u.log == s.res.log && u.received == s.res.received + 1
    requires !u.stopped && D.LiveClient(s.req, c) ==> s.res.log[s.res.received].frame.id != s.req.clients[c].id
    ensures D.Frames(s.inboxes[c].pushed) <= D.Of(u.log[..u.received], m)
    ensures D.LiveClient(s.req, c) && !u.stopped ==> D.Frames(s.inboxes[c].pushed) == D.Of(u.log[..u.received], m)
  {
    NextOf(s, m);
    ServedId(s, m, c);
    PrefixStays(D.Frames(s.inboxes[c].pushed), D.Of(s.res.log[..s.res.received], m), D.Of(u.log[..u.received], m));
  }

  lemma PrefixStays(fs: seq<Frame>, a: seq<Frame>, b: seq<Frame>)
    requires fs <= a && (b == a || exists f :: b == a + [f])
    ensures fs <= b
  {
  }

  lemma OrderedOther(s: State, c: nat, u: D.State)
    requires Reached(s) && Enabled(s, Receive) && c < |s.inboxes| && Ordered(s.req, s.res, s.inboxes[c], c)
    requires s.res.received < |s.res.log| && !NextGoesTo(s, c)
    requires u.log == s.res.log && u.received == s.res.received + 1
    ensures Ordered(s.req, u, s.inboxes[c], c)
  {
    ReachedInv(s);
    if D.LiveClient(s.req, c) { WriterIs(s.req, c); }
    forall m: nat | Serves(s.req, m, c)
      ensures D.Frames(s.inboxes[c].pushed) <= D.Of(u.log[..u.received], m)
      ensures D.LiveClient(s.req, c) && !u.stopped ==> D.Frames(s.inboxes[c].pushed) == D.Of(u.log[..u.received], m)
    {
      OtherPrefix(s, c, u, m);
    }
  }

  lemma OrderedPushed(req: D.State, res: D.State, u: D.State, x: Inbox, e: D.Entry, c: nat)
    requires Ordered(req, res, x, c) && D.LiveClient(req, c) && !res.stopped && u.received <= |u.log|
    requires Serves(req, e.owner, c) && forall m: nat :: Serves(req, m, c) ==> m == e.owner
    requires D.Of(u.log[..u.received], e.owner) == D.Of(res.log[..res.received], e.owner) + [e.frame]
    ensures Ordered(req, u, Push(x, e), c)
  {
    assert D.Frames(x.pushed + [e]) == D.Frames(x.pushed) + [e.frame];
  }

  lemma SlotIsLive(req: D.State, id: Byte)
    requires D.ClientsInv(req) && id in req.clientSlots
    ensures var c := req.clientSlots[id]; D.LiveClient(req, c) && c < |req.clients| && req.clients[c].id == id
  {
  }

  /** The packet read next goes to the live client stream c. */
  ghost predicate NextGoesTo(s: State, c: nat) {
    && Reached(s) && Enabled(s, Receive) && s.res.received < |s.res.log|
    && var id := s.res.log[s.res.received].frame.id; id in s.req.clientSlots && s.req.clientSlots[id] == c
  }

  lemma DispatchShape(s: State, c: nat)
    requires NextGoesTo(s, c)
    ensures s.res.received < s.res.sent && D.LiveClient(s.req, c) && c < |s.inboxes|
    ensures var t, e := Apply(s, Receive), s.res.log[s.res.received];
            && t.inboxes == s.inboxes[c := Push(s.inboxes[c], e)] && t.req == s.req
            && s.req.clients[c].id == e.frame.id
            && t.res.log == s.res.log && t.res.received == s.res.received + 1 && t.res.stopped == s.res.stopped
  {
    ReachedInv(s);
    TakenFrame(s.res);
    SlotIsLive(s.req, s.res.log[s.res.received].frame.id);
  }

  lemma FreshNext(s: State, c: nat)
    requires Kept(s, c) && D.LiveClient(s.req, c) && !s.res.stopped && s.res.received < s.res.sent <= |s.res.log|
    requires s.res.log[s.res.received].frame.id == s.req.clients[c].id
    ensures Serves(s.req, s.res.log[s.res.received].owner, c)
  {
    assert Flying(s.req, s.res, s.res.received);
  }

  /** The next packet is for the live client stream c. */
  ghost predicate NextFor(s: State, c: nat) {
    NextGoesTo(s, c) && Kept(s, c) && c < |s.inboxes| && Ordered(s.req, s.res, s.inboxes[c], c)
  }

  lemma NextServes(s: State, c: nat)
    requires NextFor(s, c)
    ensures var m := s.res.log[s.res.received].owner;
            Serves(s.req, m, c) && forall i: nat :: Serves(s.req, i, c) ==> i == m
    ensures D.LiveClient(s.req, c) && !s.res.stopped
  {
    DispatchShape(s, c);
    ReachedInv(s);
    FreshNext(s, c);
    FirstSession(s.req, s.res.log[s.res.received].owner, c);
  }

  lemma OrderedPush(s: State, c: nat, u: D.State)
    requires NextFor(s, c) && u.log == s.res.log && u.received == s.res.received + 1
    ensures Ordered(s.req, u, Push(s.inboxes[c], s.res.log[s.res.received]), c)
  {
    ReachedInv(s);
    var e := s.res.log[s.res.received];
    NextServes(s, c);
    NextOf(s, e.owner);
    OrderedPushed(s.req, s.res, u, s.inboxes[c], e, c);
  }

  lemma PushOpens(s: State, c: nat)
    requires NextFor(s, c)
    ensures Opens(s.res.log[s.res.received].frame.kind) <==> s.inboxes[c].pushed == []
  {
    ReachedInv(s);
    var e := s.res.log[s.res.received];
    NextServes(s, c);
    NextOf(s, e.owner);
    NoFramesNoEntries(s.inboxes[c].pushed);
  }

  lemma NoFramesNoEntries(log: seq<D.Entry>)
    ensures D.Frames(log) == [] <==> log == []
  {
  }

  lemma OrderedQuiet(s: State, r: D.Step, c: nat)
    requires Reached(s) && D.Enabled(s.req, r) && !r.Receive? && c < |s.req.clients| && c < |s.inboxes|
    requires Ordered(s.req, s.res, s.inboxes[c], c)
    ensures var t := RequestStep(s, r); Ordered(t.req, t.res, t.inboxes[c], c)
  {
    ReachedInv(s);
    var t := RequestStep(s, r);
    QuietResponse(s, r, c);
    RequestLife(s.req, r, c);
    QuietOwners(s.req, r, c);
    OrderedSame(s.req, s.res, t.req, t.res, s.inboxes[c], t.inboxes[c], c);
  }

  lemma QuietResponse(s: State, r: D.Step, c: nat)
    requires D.Enabled(s.req, r) && !r.Receive? && c < |s.inboxes|
    ensures var t := RequestStep(s, r);
            && t.res.log == s.res.log && t.res.received == s.res.received && t.res.stopped == s.res.stopped
            && c < |t.inboxes| && t.inboxes[c] == s.inboxes[c] && t.req == D.Apply(s.req, r)
  {
  }

  lemma QuietOwners(req: D.State, r: D.Step, c: nat)
    requires D.Enabled(req, r) && !r.Receive?
    ensures forall m: nat :: Serves(D.Apply(req, r), m, c) ==> Serves(req, m, c)
  {
  }

  lemma ResponseLog(res: D.State, r: D.Step)
    requires D.Enabled(res, r) && (r.Write? || r.Flush? || r.Transmit?) && res.received <= |res.log|
    ensures var u := D.Apply(res, r);
            && u.received == res.received <= |u.log| && u.log[..u.received] == res.log[..res.received]
            && u.stopped == res.stopped
  {
    if !r.Transmit? {
      var u := D.Apply(res, r);
      PutShape(res, r);
      PutSame(res, r);
      assert u.log[..|res.log|][..u.received] == u.log[..u.received];
    }
  }

  lemma OrderedRespond(s: State, r: D.Step, c: nat)
    requires Reached(s) && D.Enabled(s.res, r) && (r.Write? || r.Flush? || r.Transmit?)
    requires c < |s.req.clients| && c < |s.inboxes|
    requires Ordered(s.req, s.res, s.inboxes[c], c)
    ensures Ordered(s.req, D.Apply(s.res, r), s.inboxes[c], c)
  {
    ReachedInv(s);
    var u := D.Apply(s.res, r);
    ResponseLog(s.res, r);
    OrderedSame(s.req, s.res, s.req, u, s.inboxes[c], s.inboxes[c], c);
  }

  lemma OrderedDispatch(s: State, c: nat)
    requires Reached(s) && Enabled(s, Receive) && Kept(s, c) && c < |s.inboxes|
    requires Ordered(s.req, s.res, s.inboxes[c], c)
    ensures var t := Apply(s, Receive); Ordered(t.req, t.res, t.inboxes[c], c)
  {
    ReachedInv(s);
    TakenFrame(s.res);
    if NextGoesTo(s, c) {
      DispatchShape(s, c);
      OrderedPush(s, c, Apply(s, Receive).res);
    } else {
      DispatchOther(s, c);
      OrderedOther(s, c, Apply(s, Receive).res);
    }
  }

  lemma OrderedStep(s: State, step: Step, c: nat)
    requires Reached(s) && Enabled(s, step) && Kept(s, c) && c < |s.inboxes|
    requires Ordered(s.req, s.res, s.inboxes[c], c)
    ensures var t := Apply(s, step); c < |t.inboxes| && Ordered(t.req, t.res, t.inboxes[c], c)
  {
    ReachedNext(s, step);
    ReachedInv(s);
    ReachedInv(Apply(s, step));
    LifeShape(s, step, c);
    match step
    case Request(r) =>
      if r.Receive? { OrderedOpened(s, c); } else { OrderedQuiet(s, r, c); }
    case Respond(m, data) => OrderedRespond(s, D.Write(m, data), c);
    case FlushResponse(m) => OrderedRespond(s, D.Flush(m), c);
    case Transmit => OrderedRespond(s, D.Transmit, c);
    case Receive => OrderedDispatch(s, c);
    case ReaderStops =>
      OrderedSame(s.req, s.res, s.req, s.res.(stopped := true), s.inboxes[c], s.inboxes[c], c);
    case Read(_, _) => OrderedSame(s.req, s.res, s.req, s.res, s.inboxes[c], Apply(s, step).inboxes[c], c);
    case Disconnect(_) => OrderedSame(s.req, s.res, s.req, s.res, s.inboxes[c], Apply(s, step).inboxes[c], c);
  }

  // ---- the bytes ----

  ghost predicate Calm(q: seq<Frame>) {
    forall f :: f in q ==> !Opens(f.kind)
  }

  /** A reader queue nothing has been fetched from: before the first packet of a response there are only the empty
      ones a disconnect puts there, and after it no other packet opens a sequence. */
  predicate Lined(q: seq<Frame>) {
    if q == [] then true
    else if Opens(q[0].kind) then forall f :: f in q[1..] ==> !Opens(f.kind)
    else q[0].payload == [] && Lined(q[1..])
  }

  /** The bytes read and the bytes unread make up the payload of the packets pushed. */
  ghost predicate InboxInv(x: Inbox) {
    match x.source.cur
    case None =>
      && x.got == [] && Lined(x.source.queue) && (x.pushed == [] <==> Calm(x.source.queue))
      && Payloads(x.source.queue) == Payloads(D.Frames(x.pushed))
    case Some(c) =>
      && x.pushed != [] && Calm(x.source.queue)
      && x.got + c.unread + Payloads(x.source.queue) == Payloads(D.Frames(x.pushed))
  }

  lemma {:induction false} LinedAppend(q: seq<Frame>, f: Frame)
    requires Lined(q) && (Opens(f.kind) ==> Calm(q)) && (!Opens(f.kind) ==> !Calm(q) || f.payload == [])
    ensures Lined(q + [f])
  {
    if q == [] {
      assert (q + [f])[1..] == [];
    } else {
      assert (q + [f])[1..] == q[1..] + [f];
      if !Opens(q[0].kind) {
        assert Calm(q) ==> Calm(q[1..]);
        assert q == [q[0]] + q[1..];
        LinedAppend(q[1..], f);
      }
    }
  }

  lemma CalmAppend(q: seq<Frame>, f: Frame)
    ensures Calm(q + [f]) <==> Calm(q) && !Opens(f.kind)
  {
    assert f in q + [f];
    assert forall g :: g in q ==> g in q + [f];
  }

  lemma InboxPush(x: Inbox, e: D.Entry)
    requires InboxInv(x) && (Opens(e.frame.kind) <==> x.pushed == [])
    ensures InboxInv(Push(x, e))
  {
    CalmAppend(x.source.queue, e.frame);
    PayloadsAppend(x.source.queue, e.frame);
    PayloadsAppend(D.Frames(x.pushed), e.frame);
    assert D.Frames(x.pushed + [e]) == D.Frames(x.pushed) + [e.frame];
    if x.source.cur.None? {
      LinedAppend(x.source.queue, e.frame);
    }
  }

  lemma InboxDisconnect(x: Inbox, id: Byte)
    requires InboxInv(x)
    ensures InboxInv(Disconnected(x, id))
  {
    var f := Frame(id, End, []);
    CalmAppend(x.source.queue, f);
    PayloadsAppend(x.source.queue, f);
    if x.source.cur.None? {
      LinedAppend(x.source.queue, f);
    }
  }

  lemma InboxDrain(x: Inbox, cur: Cursor, q: seq<Frame>, len: nat)
    requires Calm(q) && x.pushed != []
    requires x.got + cur.unread + Payloads(q) == Payloads(D.Frames(x.pushed))
    ensures var r := Drain(cur, q, len); InboxInv(x.(source := r.state, got := x.got + r.data))
  {
    var r := Drain(cur, q, len);
    DrainConserves(cur, q, len);
    D.MovedBytes(x.got, r.data, r.state.cur.value.unread, Payloads(r.state.queue), cur.unread, Payloads(q));
  }

  lemma InboxRead(x: Inbox, len: nat)
    requires InboxInv(x)
    ensures InboxInv(ReadInbox(x, len))
  {
    var q := x.source.queue;
    match x.source.cur {
      case Some(c) => InboxDrain(x, c, q, len);
      case None =>
        if q != [] {
          assert q == [q[0]] + q[1..];
          if Opens(q[0].kind) {
            InboxDrain(x, Cursor(q[0].kind, q[0].payload), q[1..], len);
          } else {
            assert Payloads(q) == Payloads(q[1..]);
          }
        }
    }
  }

  lemma InboxSame(s: State, step: Step, c: nat)
    requires Enabled(s, step) && !step.Receive? && !step.Read? && !step.Disconnect? && c < |s.inboxes|
    ensures var t := Apply(s, step); c < |t.inboxes| && t.inboxes[c] == s.inboxes[c]
  {
    if step.Request? {
      RequestInboxes(s, step.step);
      assert Apply(s, step).inboxes[c] == Apply(s, step).inboxes[..|s.inboxes|][c];
    }
  }

  lemma InboxStep(s: State, step: Step, c: nat)
    requires Reached(s) && Enabled(s, step) && Kept(s, c) && c < |s.inboxes|
    requires Ordered(s.req, s.res, s.inboxes[c], c) && InboxInv(s.inboxes[c])
    ensures var t := Apply(s, step); c < |t.inboxes| && InboxInv(t.inboxes[c])
  {
    match step
    case Receive => InboxDispatch(s, c);
    case Read(_, len) => InboxRead(s.inboxes[c], len);
    case Disconnect(_) => InboxDisconnect(s.inboxes[c], s.req.clients[c].id);
    case _ => InboxSame(s, step, c);
  }

  lemma InboxDispatch(s: State, c: nat)
    requires Reached(s) && Enabled(s, Receive) && Kept(s, c) && c < |s.inboxes|
    requires Ordered(s.req, s.res, s.inboxes[c], c) && InboxInv(s.inboxes[c])
    ensures var t := Apply(s, Receive); c < |t.inboxes| && InboxInv(t.inboxes[c])
  {
    ReachedInv(s);
    TakenFrame(s.res);
    if NextGoesTo(s, c) {
      DispatchShape(s, c);
      PushOpens(s, c);
      InboxPush(s.inboxes[c], s.res.log[s.res.received]);
    } else {
      DispatchOther(s, c);
    }
  }

  ghost predicate Served(s: State, c: nat) {
    Kept(s, c) && c < |s.inboxes| && Ordered(s.req, s.res, s.inboxes[c], c) && InboxInv(s.inboxes[c])
  }

  lemma {:induction false} ServedRun(s: State, steps: seq<Step>, c: nat)
    requires Reached(s) && Run(s, steps).Some? && Served(s, c)
    ensures Served(Run(s, steps).value, c)
    decreases |steps|
  {
    if steps != [] {
      ReachedNext(s, steps[0]);
      KeptStep(s, steps[0], c);
      OrderedStep(s, steps[0], c);
      InboxStep(s, steps[0], c);
      ServedRun(Apply(s, steps[0]), steps[1..], c);
    }
  }

  lemma ServedCreate(s: State, id: Byte)
    requires Reached(s) && Enabled(s, Request(D.Create(id))) && !Pending(s, id)
    ensures Served(Apply(s, Request(D.Create(id))), |s.req.clients|)
  {
    ReachedInv(s);
    var t := Apply(s, Request(D.Create(id)));
    KeptCreate(s, id);
    forall m: nat ensures !Serves(t.req, m, |s.req.clients|) {
      if m < |s.req.sessions| { NewIsNotServed(s, id, m); }
    }
  }

  lemma NoneFlying(res: D.State, m: nat)
    requires D.WireInv(res) && D.LogInv(res) && !res.stopped && res.queue == [] && res.wire == [] && m < |res.clients|
    ensures res.received <= |res.log| && D.Of(res.log[..res.received], m) == D.Sent(res.clients[m])
  {
    D.NoFrames(D.Frames(res.log[res.received..res.sent]));
    assert res.log[..res.received] == res.log;
  }

  lemma AllArrived(u: State, m: nat, c: nat)
    requires Reached(u) && Served(u, c) && Serves(u.req, m, c) && D.LiveClient(u.req, c) && !u.res.stopped
    requires u.res.queue == [] && u.res.wire == [] && m < |u.res.clients| && u.res.clients[m].flushed
    ensures D.Frames(u.inboxes[c].pushed) == Flushed(u.res.clients[m].id, u.res.clients[m].written)
    ensures Payloads(D.Frames(u.inboxes[c].pushed)) == u.res.clients[m].written
  {
    ReachedInv(u);
    NoneFlying(u.res, m);
    Segmentation(u.res.clients[m].id, u.res.clients[m].written);
  }

  lemma ServedReads(u: State, m: nat, c: nat)
    requires Reached(u) && Served(u, c) && Serves(u.req, m, c)
    ensures m < |u.res.clients| && ReadsFrom(u.inboxes[c], u.res.clients[m])
  {
    ReachedInv(u);
    var x, handler := u.inboxes[c], u.res.clients[m];
    D.OfPrefix(u.res.log, u.res.received, m);
    D.PayloadsPrefix(D.Frames(x.pushed), D.Sent(handler));
    D.SentPayload(handler);
    assert x.got <= Payloads(D.Frames(x.pushed));
  }

  // ---- the client's reader ----

  ghost predicate Holding(s: State, c: nat, id: Byte) {
    D.LiveClient(s.req, c) && s.req.clients[c].id == id
  }

  /** A response packet goes to the live client stream with its id, whatever its type and whoever sent it; if there is
      none, and only then, the reader stops. */
  ghost predicate ReceivesResponse(s: State, t: State, e: D.Entry) {
    && (t.res.stopped <==> !exists c: nat :: Holding(s, c, e.frame.id))
    && (t.res.stopped ==> t.inboxes == s.inboxes)
    && forall c: nat :: Holding(s, c, e.frame.id) ==>
         && c < |s.inboxes|
         && var x := s.inboxes[c];
            t.inboxes == s.inboxes[c := Inbox(x.pushed + [e], Reader(x.source.cur, x.source.queue + [e.frame]), x.got)]
  }

  /** In every reachable state, the frame the client's reader reads next is the next packet the handlers have sent. */
  lemma ResponseReception(steps: seq<Step>)
    requires Run(INIT, steps).Some? && Enabled(Run(INIT, steps).value, Receive)
    ensures var s := Run(INIT, steps).value;
            var t := Apply(s, Receive);
            && s.res.received < |s.res.log| && ReceivesResponse(s, t, s.res.log[s.res.received])
            && t.req == s.req
            && t.res == s.res.(wire := t.res.wire, received := s.res.received + 1, stopped := t.res.stopped)
  {
    RunInv(INIT, steps);
    var s := Run(INIT, steps).value;
    TakenFrame(s.res);
    var id := s.res.log[s.res.received].frame.id;
    if id in s.req.clientSlots {
      SlotIsLive(s.req, id);
      assert Holding(s, s.req.clientSlots[id], id);
    }
  }

  // ---- a disconnected client stream ----

  /** The caller can read up to the end of a closed sequence, and has then read these bytes. */
  ghost predicate Cut(x: Inbox, bytes: seq<Byte>) {
    ClosedOff(x.source) && x.got + Readable(x.source) == bytes
  }

  lemma CutPush(x: Inbox, f: Frame, pushed: seq<D.Entry>, bytes: seq<Byte>)
    requires Cut(x, bytes)
    ensures Cut(Inbox(pushed, Reader(x.source.cur, x.source.queue + [f]), x.got), bytes)
  {
    ClosedPush(x.source, f);
  }

  lemma CutRead(x: Inbox, len: nat, bytes: seq<Byte>)
    requires Cut(x, bytes)
    ensures Cut(ReadInbox(x, len), bytes)
  {
    ClosedRead(x.source, len);
    var r := ReadBytes(x.source, len);
    assert x.got + r.data + Readable(r.state) == x.got + (r.data + Readable(r.state));
  }

  lemma CutStep(s: State, step: Step, c: nat, bytes: seq<Byte>)
    requires c < |s.inboxes| && Enabled(s, step) && Cut(s.inboxes[c], bytes)
    ensures var t := Apply(s, step); c < |t.inboxes| && Cut(t.inboxes[c], bytes)
  {
    var x := s.inboxes[c];
    match step
    case Receive =>
      var e := D.Entry(DecodeFrame(s.res.wire).frame, D.OwnerAt(s.res, s.res.received));
      CutPush(x, e.frame, x.pushed + [e], bytes);
    case Read(_, len) => CutRead(x, len, bytes);
    case Disconnect(d) => CutPush(x, Frame(s.req.clients[d].id, End, []), x.pushed, bytes);
    case _ => InboxSame(s, step, c);
  }

  lemma {:induction false} CutRun(s: State, steps: seq<Step>, c: nat, bytes: seq<Byte>)
    requires c < |s.inboxes| && Run(s, steps).Some? && Cut(s.inboxes[c], bytes)
    ensures var t := Run(s, steps).value; c < |t.inboxes| && Cut(t.inboxes[c], bytes)
    decreases |steps|
  {
    if steps != [] {
      CutStep(s, steps[0], c, bytes);
      CutRun(Apply(s, steps[0]), steps[1..], c, bytes);
    }
  }

  lemma DisconnectCuts(x: Inbox, id: Byte) returns (bytes: seq<Byte>)
    requires InboxInv(x) && x.source.cur.Some?
    ensures Cut(Disconnected(x, id), bytes) && bytes <= Payloads(D.Frames(x.pushed))
  {
    var q, c, f := x.source.queue, x.source.cur.value, Frame(id, End, []);
    ReachClosing(c, q, f);
    bytes := x.got + (c.unread + Payloads((q + [f])[..Reach(c, q + [f])]));
    D.PayloadsPrefix((q + [f])[..Reach(c, q + [f])], q + [f]);
    PayloadsAppend(q, f);
    assert x.got + (c.unread + Payloads(q)) == x.got + c.unread + Payloads(q);
  }

  /** Once a caller has begun to read its response, disconnecting its stream cuts it off: whatever it has read in the
      end had been pushed before. */
  lemma NothingAfterDisconnect(before: seq<Step>, id: Byte, after: seq<Step>, later: seq<Step>)
    requires Run(INIT, before).Some? && id !in Run(INIT, before).value.req.clientSlots
    requires var s := Run(INIT, before).value;
             !Pending(s, id) && Run(Apply(s, Request(D.Create(id))), after).Some?
    requires var s := Run(INIT, before).value;
             var c, u := |s.req.clients|, Run(Apply(s, Request(D.Create(id))), after).value;
             && Enabled(u, Disconnect(c)) && c < |u.inboxes| && u.inboxes[c].source.cur.Some?
             && Run(Apply(u, Disconnect(c)), later).Some?
    ensures var s := Run(INIT, before).value;
            var c, u := |s.req.clients|, Run(Apply(s, Request(D.Create(id))), after).value;
            var v := Run(Apply(u, Disconnect(c)), later).value;
            c < |v.inboxes| && v.inboxes[c].got <= Payloads(D.Frames(u.inboxes[c].pushed))
  {
    var c := |Run(INIT, before).value.req.clients|;
    var u := ServedAfter(before, id, after);
    var bytes := DisconnectCuts(u.inboxes[c], u.req.clients[c].id);
    CutRun(Apply(u, Disconnect(c)), later, c, bytes);
  }

  // ---- a call completes ----

  function Asking(ds: seq<D.Step>): seq<Step> {
    if ds == [] then [] else [Request(ds[0])] + Asking(ds[1..])
  }

  lemma RunCons(s: State, step: Step, rest: seq<Step>)
    requires Enabled(s, step)
    ensures Run(s, [step] + rest) == Run(Apply(s, step), rest)
  {
    assert ([step] + rest)[1..] == rest;
  }

  const EMPTY := Inbox([], Reader(None, []), [])

  /** Nothing has been answered yet. */
  ghost predicate Unanswered(s: State) {
    && !s.res.stopped && s.res.log == [] && s.res.queue == [] && s.res.wire == [] && s.res.sent == s.res.received == 0
    && (forall m :: 0 <= m < |s.res.clients| ==> s.res.clients[m].written == [] && !s.res.clients[m].flushed)
    && (forall c :: 0 <= c < |s.inboxes| ==> s.inboxes[c] == EMPTY)
  }

  lemma AskOne(s: State, r: D.Step)
    requires Unanswered(s) && D.Enabled(s.req, r)
    ensures Enabled(s, Request(r)) && Unanswered(RequestStep(s, r)) && RequestStep(s, r).req == D.Apply(s.req, r)
  {
    RequestKeepsAnswers(s, r);
  }

  lemma {:induction false} AskAll(s: State, ds: seq<D.Step>)
    requires Unanswered(s) && D.Run(s.req, ds).Some?
    ensures Run(s, Asking(ds)).Some?
    ensures var t := Run(s, Asking(ds)).value; Unanswered(t) && Some(t.req) == D.Run(s.req, ds)
    decreases |ds|
  {
    if ds != [] {
      AskOne(s, ds[0]);
      AskAll(RequestStep(s, ds[0]), ds[1..]);
      RunCons(s, Request(ds[0]), Asking(ds[1..]));
    }
  }

  /** The server's part of the way back. */
  function Back(d: D.Step): Step
    requires d.Write? || d.Flush? || d.Transmit?
  {
    match d
    case Write(m, data) => Respond(m, data)
    case Flush(m) => FlushResponse(m)
    case Transmit => Transmit
  }

  predicate Sending(ds: seq<D.Step>) {
    forall d :: d in ds ==> d.Write? || d.Flush? || d.Transmit?
  }

  function Backs(ds: seq<D.Step>): seq<Step>
    requires Sending(ds)
  {
    if ds == [] then [] else [Back(ds[0])] + Backs(ds[1..])
  }

  lemma {:induction false} SendBack(s: State, ds: seq<D.Step>)
    requires Sending(ds) && D.Run(s.res, ds).Some? && !s.req.stopped
    ensures Run(s, Backs(ds)) == Some(s.(res := D.Run(s.res, ds).value))
    decreases |ds|
  {
    if ds != [] {
      RunCons(s, Back(ds[0]), Backs(ds[1..]));
      SendBack(Apply(s, Back(ds[0])), ds[1..]);
    }
  }

  function Times(n: nat, step: Step): seq<Step> {
    if n == 0 then [] else [step] + Times(n - 1, step)
  }

  function Reads(c: nat, lens: seq<nat>): seq<Step> {
    if lens == [] then [] else [Read(c, lens[0])] + Reads(c, lens[1..])
  }

  /** The whole response of the only session is on the wire, and some of it has been read. */
  ghost predicate Returning(s: State, id: Byte) {
    && Reached(s) && Holding(s, 0, id) && |s.inboxes| == 1
    && |s.res.clients| == 1 && s.res.clients[0].id == id && s.res.clients[0].flushed
    && s.res.queue == [] && s.res.received <= s.res.sent == |s.res.log| && !s.res.stopped
    && var log := s.res.log[..s.res.received]; s.inboxes[0] == Inbox(log, Reader(None, D.Frames(log)), [])
  }

  lemma ReturnOne(s: State, id: Byte)
    requires Returning(s, id) && s.res.received < |s.res.log|
    ensures Enabled(s, Receive) && Returning(Apply(s, Receive), id)
    ensures var t := Apply(s, Receive);
            t.res.log == s.res.log && t.res.received == s.res.received + 1 && t.res.clients == s.res.clients
            && t.req == s.req
  {
    ReturnNext(s, id);
    ReachedNext(s, Receive);
    D.LogStep(s.res);
    D.FramesOn(s.res.log, s.res.received);
    ReturnShape(s, id);
  }

  lemma ReturnNext(s: State, id: Byte)
    requires Returning(s, id) && s.res.received < |s.res.log|
    ensures Enabled(s, Receive) && s.res.log[s.res.received].frame.id == id && s.res.log[s.res.received].owner == 0
  {
    ReachedInv(s);
    D.CanReceive(s.res);
    D.OnlyFirstOpens(s.res);
  }

  lemma ReturnShape(s: State, id: Byte)
    requires Reached(s) && Enabled(s, Receive) && Holding(s, 0, id) && s.res.received < |s.res.log|
    requires s.res.log[s.res.received].frame.id == id && s.res.log[s.res.received].owner == 0
    ensures var t := Apply(s, Receive);
            && t == s.(res := s.res.(wire := t.res.wire, received := s.res.received + 1), inboxes := t.inboxes)
            && |s.inboxes| > 0 && t.inboxes == s.inboxes[0 := Push(s.inboxes[0], s.res.log[s.res.received])]
  {
    ReachedInv(s);
    TakenFrame(s.res);
  }

  lemma {:induction false} ReturnAll(s: State, id: Byte)
    requires Returning(s, id)
    ensures var steps := Times(|s.res.log| - s.res.received, Receive);
            && Run(s, steps).Some?
            && var t := Run(s, steps).value;
               && Returning(t, id) && t.res.received == |t.res.log| && t.res.log == s.res.log
               && t.res.clients == s.res.clients && t.req == s.req
    decreases |s.res.log| - s.res.received
  {
    if s.res.received < |s.res.log| {
      ReturnOne(s, id);
      ReturnAll(Apply(s, Receive), id);
      RunCons(s, Receive, Times(|s.res.log| - s.res.received - 1, Receive));
    }
  }

  lemma {:induction false} ReadAll(s: State, c: nat, lens: seq<nat>)
    requires D.LiveClient(s.req, c) && c < |s.inboxes| && ReadMany(s.inboxes[c].source, lens).Some?
    ensures Run(s, Reads(c, lens)).Some?
    ensures var t := Run(s, Reads(c, lens)).value;
            && t.req == s.req && |t.inboxes| == |s.inboxes|
            && t.inboxes[c].got == s.inboxes[c].got + Concat(ReadMany(s.inboxes[c].source, lens).value.0)
    decreases |lens|
  {
    var x := s.inboxes[c];
    if lens == [] {
      assert x.got + [] == x.got;
    } else {
      ReadAll(Apply(s, Read(c, lens[0])), c, lens[1..]);
      RunCons(s, Read(c, lens[0]), Reads(c, lens[1..]));
      D.GotMore(x.source, x.got, lens);
    }
  }

  /** What a handler does to answer: it writes the pieces and flushes, and its n packets are written to the wire. */
  function Reply(pieces: seq<seq<Byte>>, n: nat): seq<D.Step> {
    D.Writes(0, pieces) + [D.Flush(0)] + D.Times(n, D.Transmit)
  }

  /** A whole call. */
  function Call(ask: seq<D.Step>, reply: seq<D.Step>, n: nat, lens: seq<nat>): seq<Step>
    requires Sending(reply)
  {
    Asking(ask) + Backs(reply) + Times(n, Receive) + Reads(0, lens)
  }

  lemma {:induction false} ReplySends(pieces: seq<seq<Byte>>, n: nat)
    ensures Sending(D.Writes(0, pieces)) && Sending(D.Times(n, D.Transmit)) && Sending(Reply(pieces, n))
    decreases |pieces| + n
  {
    if pieces != [] {
      ReplySends(pieces[1..], n);
    } else if n > 0 {
      ReplySends(pieces, n - 1);
    }
  }

  /** A call completes: whatever bytes are asked and answered, in any pieces that fit a packet, there is a run in which
      the handler reads any part of the request, in any pieces, and the caller any part of the response. */
  lemma CallCompletes(id: Byte, asked: seq<seq<Byte>>, taken: seq<nat>, answered: seq<seq<Byte>>, got: seq<nat>)
    returns (n: nat, k: nat)
    requires asked != [] && D.Pieces(asked) && taken != [] && Sum(taken) <= |Concat(asked)|
    requires answered != [] && D.Pieces(answered) && got != [] && Sum(got) <= |Concat(answered)|
    ensures Sending(Reply(answered, k))
    ensures var steps := Call(D.Request(id, asked, n, taken), Reply(answered, k), k, got);
            && Run(INIT, steps).Some?
            && var t := Run(INIT, steps).value;
               && |t.req.sessions| == 1 && t.req.sessions[0].got == Concat(asked)[..Sum(taken)]
               && |t.inboxes| == 1 && t.inboxes[0].got == Concat(answered)[..Sum(got)]
  {
    n := D.RequestArrives(id, asked, taken);
    k := |Flushed(id, Concat(answered))|;
    ReplySends(answered, k);
    var ask, reply := Asking(D.Request(id, asked, n, taken)), Backs(Reply(answered, k));
    var s := Asked(id, asked, n, taken);
    var t := Answer(ask, s, id, answered, k);
    var u := ReturnAndRead(t, id, Concat(answered), got);
    RunOn(INIT, ask + reply, Times(k, Receive) + Reads(0, got));
    assert ask + reply + (Times(k, Receive) + Reads(0, got)) == ask + reply + Times(k, Receive) + Reads(0, got);
  }

  /** A request has arrived and been read, and its session waits to be answered. */
  ghost predicate Awaiting(s: State, id: Byte) {
    && Unanswered(s) && |s.req.sessions| == 1 && D.Active(s.req, 0) && s.req.sessions[0].id == id
    && Holding(s, 0, id) && |s.req.clients| == 1 && !s.req.stopped
  }

  lemma Asked(id: Byte, pieces: seq<seq<Byte>>, n: nat, lens: seq<nat>) returns (s: State)
    requires D.Run(D.INIT, D.Request(id, pieces, n, lens)).Some?
    requires var t := D.Run(D.INIT, D.Request(id, pieces, n, lens)).value;
             && |t.sessions| == 1 && D.Active(t, 0) && t.sessions[0].id == id
             && |t.clients| == 1 && t.clients[0].id == id && t.clients[0].live && !t.stopped
    ensures Run(INIT, Asking(D.Request(id, pieces, n, lens))) == Some(s) && Awaiting(s, id)
    ensures s.req == D.Run(D.INIT, D.Request(id, pieces, n, lens)).value
  {
    AskAll(INIT, D.Request(id, pieces, n, lens));
    s := Run(INIT, Asking(D.Request(id, pieces, n, lens))).value;
  }

  lemma Answer(ask: seq<Step>, s: State, id: Byte, pieces: seq<seq<Byte>>, k: nat) returns (t: State)
    requires Run(INIT, ask) == Some(s) && Awaiting(s, id)
    requires pieces != [] && D.Pieces(pieces) && Sending(Reply(pieces, k)) && k == |Flushed(id, Concat(pieces))|
    ensures Run(INIT, ask + Backs(Reply(pieces, k))) == Some(t)
    ensures Returning(t, id) && t.res.received == 0 && |t.res.log| == k && t.req == s.req
    ensures t.res.clients[0].written == Concat(pieces)
  {
    RunInv(INIT, ask);
    SenderReady(s, id);
    var v := SendReply(s.res, id, pieces, k);
    SendBack(s, Reply(pieces, k));
    t := s.(res := v);
    RunOn(INIT, ask, Backs(Reply(pieces, k)));
    assert Reached(t);
    assert t.inboxes[0] == EMPTY;
  }

  lemma SenderReady(s: State, id: Byte)
    requires Inv(s) && Awaiting(s, id)
    ensures D.Inv(s.res) && |s.res.clients| == 1 && s.res.clients[0].id == id && s.res.clients[0].live
    ensures !s.res.clients[0].flushed && s.res.clients[0].written == [] && |s.inboxes| == 1
  {
  }

  lemma ReturnAndRead(t: State, id: Byte, b: seq<Byte>, lens: seq<nat>) returns (v: State)
    requires Returning(t, id) && t.res.received == 0 && t.res.clients[0].written == b && lens != [] && Sum(lens) <= |b|
    ensures Run(t, Times(|t.res.log|, Receive) + Reads(0, lens)) == Some(v)
    ensures v.req == t.req && |v.inboxes| == 1 && v.inboxes[0].got == b[..Sum(lens)]
  {
    ReturnAll(t, id);
    var u := Run(t, Times(|t.res.log|, Receive)).value;
    Returned(u, id, b, lens);
    ReadAll(u, 0, lens);
    v := Run(u, Reads(0, lens)).value;
    RunOn(t, Times(|t.res.log|, Receive), Reads(0, lens));
    assert [] + b[..Sum(lens)] == b[..Sum(lens)];
  }

  lemma SendReply(r: D.State, id: Byte, pieces: seq<seq<Byte>>, k: nat) returns (v: D.State)
    requires D.Inv(r) && |r.clients| == 1 && r.clients[0].id == id && r.clients[0].live && !r.clients[0].flushed
    requires r.clients[0].written == [] && r.sent == r.received == 0
    requires pieces != [] && D.Pieces(pieces) && k == |Flushed(id, Concat(pieces))|
    ensures D.Run(r, Reply(pieces, k)) == Some(v) && |v.log| == k
    ensures |v.clients| == 1 && v.clients[0].id == id && v.clients[0].flushed && v.clients[0].written == Concat(pieces)
    ensures v == r.(clients := v.clients, queue := [], wire := v.wire, log := v.log, sent := k)
  {
    var f := FlushReply(r, pieces);
    D.RunInv(r, D.Writes(0, pieces) + [D.Flush(0)]);
    D.OneOwner(f);
    D.AllQueued(f);
    D.TransmitAll(f);
    D.RunOn(r, D.Writes(0, pieces) + [D.Flush(0)], D.Times(k, D.Transmit));
    v := D.Run(f, D.Times(k, D.Transmit)).value;
  }

  lemma FlushReply(r: D.State, pieces: seq<seq<Byte>>) returns (f: D.State)
    requires |r.clients| == 1 && r.clients[0].live && !r.clients[0].flushed && r.clients[0].written == []
    requires pieces != [] && D.Pieces(pieces)
    ensures D.Run(r, D.Writes(0, pieces) + [D.Flush(0)]) == Some(f)
    ensures f == r.(clients := [r.clients[0].(begun := true, written := Concat(pieces), flushed := true)],
                    queue := f.queue, log := f.log)
  {
    D.WriteAll(r, 0, pieces);
    var w := D.Run(r, D.Writes(0, pieces)).value;
    assert [] + Concat(pieces) == Concat(pieces);
    f := D.Apply(w, D.Flush(0));
    D.RunCons(w, D.Flush(0), []);
    D.RunOn(r, D.Writes(0, pieces), [D.Flush(0)]);
  }

  lemma Returned(u: State, id: Byte, b: seq<Byte>, lens: seq<nat>)
    requires Returning(u, id) && u.res.received == |u.res.log| && u.res.clients[0].written == b
    requires lens != [] && Sum(lens) <= |b|
    ensures var r := ReadMany(u.inboxes[0].source, lens); r.Some? && Concat(r.value.0) == b[..Sum(lens)]
  {
    ReachedInv(u);
    assert u.res.log[..u.res.received] == u.res.log;
    D.OneOwner(u.res);
    WriteThenRead(id, b, [], lens);
    assert Flushed(id, b) + [] == Flushed(id, b);
  }
}
