/** Multiplexing: any number of client request streams put packets into one writer queue; the packets travel over
    one byte stream and the server hands each to the request stream with its id.

    A step is what a fiber does between two blocking calls. A write that puts several packets into the queue is
    several steps, one for each put. `log`, `owner` and `received` are history: the code does not have them. */
module Demux {
  import opened Wrappers
  import opened Packet
  import opened Segments

  /** A request stream of the client, live until it is deleted. */
  datatype Client = Client(id: Byte, begun: bool, written: seq<Byte>, flushed: bool, live: bool)

  /** The packets a client stream has put into the writer queue. */
  function Sent(c: Client): seq<Frame> {
    if c.flushed then Flushed(c.id, c.written) else Emitted(c.id, c.written)
  }

  /** A request stream of the server: the client stream whose packet opened it, the packets pushed to it, what is
      still unread of them, and the bytes its handler has read. */
  datatype Session = Session(id: Byte, owner: nat, pushed: seq<Frame>, source: Reader, got: seq<Byte>)

  /** A packet in the writer queue, and the client stream that put it there. */
  datatype Entry = Entry(frame: Frame, owner: nat)

  datatype State = State(
    clients: seq<Client>,          // every client stream ever created
    clientSlots: map<Byte, nat>,   // the live ones, by id
    queue: seq<Frame>,             // the client's writer queue
    wire: seq<Byte>,               // the bytes written and not yet read by the server
    sessions: seq<Session>,        // every server stream ever created
    serverSlots: map<Byte, nat>,   // the active ones, by id
    stopped: bool,                 // the server's reader has left its loop
    log: seq<Entry>,               // everything ever put into the writer queue
    sent: nat,                     // how much of it the writer has taken
    received: nat)                 // how much of it the server has read

  const INIT := State([], map[], [], [], [], map[], false, [], 0, 0)

  datatype Step =
    | Create(id: Byte)               // a client stream is created with a free id
    | Write(c: nat, data: seq<Byte>) // it writes, putting at most one packet into the queue
    | Flush(c: nat)
    | Delete(c: nat)                 // it is deleted, flushed or not, and its id is free again
    | Transmit                       // the writer takes a packet and writes its frame
    | Receive                        // the server's reader reads a frame and dispatches it
    | ReaderStops                    // it fails to read, or is disconnected
    | Handle(m: nat, len: nat)       // a handler reads from its stream
    | Disconnect(m: nat)             // an active stream is disconnected
    | Finish(id: Byte)               // a handler returns and its stream is released

  predicate LiveClient(s: State, c: nat) { c < |s.clients| && s.clients[c].live }

  predicate Active(s: State, m: nat) {
    m < |s.sessions| && s.sessions[m].id in s.serverSlots && s.serverSlots[s.sessions[m].id] == m
  }

  predicate Enabled(s: State, step: Step) {
    match step
    case Create(id) => id !in s.clientSlots
    case Write(c, data) =>
      && LiveClient(s, c) && !s.clients[c].flushed
      && FullCount(|s.clients[c].written + data|) <= FullCount(|s.clients[c].written|) + 1
    case Flush(c) => LiveClient(s, c) && s.clients[c].begun && !s.clients[c].flushed
    case Delete(c) => LiveClient(s, c)
    case Transmit => s.queue != []
    case Receive => !s.stopped && DecodeFrame(s.wire).Got?
    case ReaderStops => true
    case Handle(m, _) => Active(s, m)
    case Disconnect(m) => Active(s, m)
    case Finish(id) => id in s.serverSlots
  }

  /** Puts the packets that client stream c has newly handed over at the end of the queue. */
  function Put(s: State, c: nat, client: Client): State
    requires c < |s.clients|
  {
    var added := if |Sent(s.clients[c])| < |Sent(client)| then Sent(client)[|Sent(s.clients[c])|..] else [];
    s.(clients := s.clients[c := client],
       queue := s.queue + added,
       log := s.log + seq(|added|, i requires 0 <= i < |added| => Entry(added[i], c)))
  }

  /** Pushes a frame to a session. */
  function Push(x: Session, f: Frame): Session {
    x.(pushed := x.pushed + [f], source := x.source.(queue := x.source.queue + [f]))
  }

  function OwnerAt(s: State, k: nat): nat { if k < |s.log| then s.log[k].owner else 0 }

  /** What the server's reader does with a packet: an opening packet must find its slot free, any other packet
      must find it taken; otherwise the reader stops. */
  function Dispatch(s: State, f: Frame): State {
    if Opens(f.kind) then
      if f.id in s.serverSlots then s.(stopped := true)
      else
        s.(sessions := s.sessions + [Session(f.id, OwnerAt(s, s.received), [f], Reader(None, [f]), [])],
           serverSlots := s.serverSlots[f.id := |s.sessions|])
    else if f.id in s.serverSlots && s.serverSlots[f.id] < |s.sessions| then
      var m := s.serverSlots[f.id];
      s.(sessions := s.sessions[m := Push(s.sessions[m], f)])
    else s.(stopped := true)
  }

  function Apply(s: State, step: Step): State
    requires Enabled(s, step)
  {
    match step
    case Create(id) =>
      s.(clients := s.clients + [Client(id, false, [], false, true)], clientSlots := s.clientSlots[id := |s.clients|])
    case Write(c, data) =>
      Put(s, c, s.clients[c].(begun := true, written := s.clients[c].written + data))
    case Flush(c) => Put(s, c, s.clients[c].(flushed := true))
    case Delete(c) =>
      s.(clients := s.clients[c := s.clients[c].(live := false)], clientSlots := s.clientSlots - {s.clients[c].id})
    case Transmit =>
      s.(queue := s.queue[1..], wire := s.wire + EncodeFrame(s.queue[0]), sent := s.sent + 1)
    case Receive =>
      var Got(f, rest) := DecodeFrame(s.wire);
      Dispatch(s, f).(wire := rest, received := s.received + 1)
    case ReaderStops => s.(stopped := true)
    case Handle(m, len) =>
      var r := ReadBytes(s.sessions[m].source, len);
      s.(sessions := s.sessions[m := s.sessions[m].(source := r.state, got := s.sessions[m].got + r.data)])
    case Disconnect(m) =>
      var x := s.sessions[m];
      s.(sessions := s.sessions[m := x.(source := x.source.(queue := x.source.queue + [Frame(x.id, End, [])]))])
    case Finish(id) => s.(serverSlots := s.serverSlots - {id})
  }

  function Run(s: State, steps: seq<Step>): Option<State>
    decreases |steps|
  {
    if steps == [] then Some(s)
    else if Enabled(s, steps[0]) then Run(Apply(s, steps[0]), steps[1..])
    else None
  }

  // ---- the log ----

  /** The packets of client stream c in the log. */
  function Of(log: seq<Entry>, c: nat): seq<Frame> {
    if log == [] then []
    else Of(log[..|log| - 1], c) + if log[|log| - 1].owner == c then [log[|log| - 1].frame] else []
  }

  /** The client stream that last put a packet with this id into the log. */
  function Last(log: seq<Entry>, id: Byte): Option<nat> {
    if log == [] then None
    else if log[|log| - 1].frame.id == id then Some(log[|log| - 1].owner)
    else Last(log[..|log| - 1], id)
  }

  function Frames(log: seq<Entry>): (fs: seq<Frame>)
    ensures |fs| == |log| && forall k :: 0 <= k < |log| ==> fs[k] == log[k].frame
  {
    seq(|log|, k requires 0 <= k < |log| => log[k].frame)
  }

  // ---- the invariant ----

  ghost predicate ClientsInv(s: State) {
    && (forall id :: id in s.clientSlots ==> LiveClient(s, s.clientSlots[id]) && s.clients[s.clientSlots[id]].id == id)
    && (forall c: nat :: LiveClient(s, c) ==> s.clients[c].id in s.clientSlots && s.clientSlots[s.clients[c].id] == c)
    && (forall c :: 0 <= c < |s.clients| && !s.clients[c].begun ==> s.clients[c].written == [] && !s.clients[c].flushed)
  }

  /** Position k of the log: a continuing packet follows a packet of its own stream among those with its id, and
      an opening packet is the first of its stream. */
  ghost predicate LogAt(s: State, k: nat)
    requires k < |s.log|
  {
    var e := s.log[k];
    && e.owner < |s.clients| && e.frame.id == s.clients[e.owner].id && WellSized(e.frame)
    && (if Opens(e.frame.kind) then Of(s.log[..k], e.owner) == [] else Last(s.log[..k], e.frame.id) == Some(e.owner))
  }

  ghost predicate LogInv(s: State) {
    && (forall k :: 0 <= k < |s.log| ==> LogAt(s, k))
    && (forall c :: 0 <= c < |s.clients| ==> Of(s.log, c) == Sent(s.clients[c]))
    && (forall c: nat :: LiveClient(s, c) && Sent(s.clients[c]) != [] ==> Last(s.log, s.clients[c].id) == Some(c))
  }

  ghost predicate WireInv(s: State) {
    && s.received <= s.sent <= |s.log|
    && s.queue == Frames(s.log[s.sent..])
    && (!s.stopped ==> s.wire == EncodeFrames(Frames(s.log[s.received..s.sent])))
  }

  /** The bytes read and the bytes unread make up the payload of the packets pushed. */
  ghost predicate SourceInv(x: Session) {
    && (x.source.cur == None ==> x.got == [] && x.source.queue != [] && Opens(x.source.queue[0].kind))
    && (forall k :: (if x.source.cur == None then 1 else 0) <= k < |x.source.queue| ==> !Opens(x.source.queue[k].kind))
    && x.got + (if x.source.cur == None then [] else x.source.cur.value.unread) + Payloads(x.source.queue) ==
      Payloads(x.pushed)
  }

  ghost predicate SessionInv(s: State, m: nat)
    requires m < |s.sessions| && s.received <= |s.log|
  {
    var x, log := s.sessions[m], s.log[..s.received];
    && x.owner < |s.clients| && x.id == s.clients[x.owner].id
    && x.pushed != [] && x.pushed <= Of(log, x.owner)
    && (Active(s, m) && !s.stopped ==> x.pushed == Of(log, x.owner) && Last(log, x.id) == Some(x.owner))
    && SourceInv(x)
  }

  ghost predicate ServerInv(s: State)
    requires s.received <= |s.log|
  {
    && (forall id :: id in s.serverSlots ==> s.serverSlots[id] < |s.sessions| && s.sessions[s.serverSlots[id]].id == id)
    && (forall m :: 0 <= m < |s.sessions| ==> SessionInv(s, m))
    && (forall m, n :: 0 <= m < n < |s.sessions| ==> s.sessions[m].owner != s.sessions[n].owner)
  }

  ghost predicate Inv(s: State) {
    ClientsInv(s) && LogInv(s) && WireInv(s) && ServerInv(s)
  }

  // ---- the log grows ----

  lemma OfAppend(log: seq<Entry>, e: Entry, c: nat)
    ensures Of(log + [e], c) == Of(log, c) + if e.owner == c then [e.frame] else []
  {
    assert (log + [e])[..|log|] == log;
  }

  lemma LastAppend(log: seq<Entry>, e: Entry, id: Byte)
    ensures Last(log + [e], id) == if e.frame.id == id then Some(e.owner) else Last(log, id)
  {
    assert (log + [e])[..|log|] == log;
  }

  lemma {:induction false} OfPrefix(log: seq<Entry>, k: nat, c: nat)
    requires k <= |log|
    ensures Of(log[..k], c) <= Of(log, c)
  {
    if k < |log| {
      assert log[..|log| - 1][..k] == log[..k];
      OfPrefix(log[..|log| - 1], k, c);
    } else {
      assert log[..k] == log;
    }
  }

  lemma {:induction false} OfUnknown(log: seq<Entry>, c: nat)
    requires forall k :: 0 <= k < |log| ==> log[k].owner != c
    ensures Of(log, c) == []
  {
    if log != [] {
      OfUnknown(log[..|log| - 1], c);
    }
  }

  /** What a write or a flush hands over: nothing, or one packet, which opens exactly if it is the first. */
  lemma HandsOverOne(c: Client, c': Client)
    requires c' == c.(flushed := true)
             || exists d :: c' == c.(begun := true, written := c.written + d)
                            && FullCount(|c.written + d|) <= FullCount(|c.written|) + 1
    requires !c.flushed
    ensures Sent(c') == Sent(c) ||
            (Sent(c')[..|Sent(c')| - 1] == Sent(c) &&
             var f := Sent(c')[|Sent(c')| - 1]; f.id == c.id && WellSized(f) && (Opens(f.kind) <==> Sent(c) == []))
    ensures |Sent(c')| >= |Sent(c)|
  {
    if c'.flushed {
      assert Sent(c')[..|Sent(c')| - 1] == Sent(c);
    } else {
      var d :| c' == c.(begun := true, written := c.written + d)
        && FullCount(|c.written + d|) <= FullCount(|c.written|) + 1;
      FullPacketsExtend(c.id, c.written, d, FullCount(|c.written|));
      assert FullCount(|c.written|) <= FullCount(|c.written + d|);
    }
  }

  lemma PutLog(s: State, c: nat, c': Client)
    requires LiveClient(s, c)
    requires Sent(c') == Sent(s.clients[c]) ||
             (|Sent(c')| > 0 && Sent(c')[..|Sent(c')| - 1] == Sent(s.clients[c]))
    ensures var s' := Put(s, c, c');
            if Sent(c') == Sent(s.clients[c]) then s'.log == s.log && s'.queue == s.queue
            else
              var f := Sent(c')[|Sent(c')| - 1];
              s'.log == s.log + [Entry(f, c)] && s'.queue == s.queue + [f]
  {
    if Sent(c') != Sent(s.clients[c]) {
      var f := Sent(c')[|Sent(c')| - 1];
      assert Sent(c')[|Sent(s.clients[c])|..] == [f];
    }
  }

  /** Client stream c has put packet f into the queue and into the log. */
  function Logged(s: State, c: nat, c': Client, f: Frame): State
    requires c < |s.clients|
  {
    s.(clients := s.clients[c := c'], log := s.log + [Entry(f, c)])
  }

  lemma PutKeepsLog(s: State, c: nat, c': Client, f: Frame)
    requires ClientsInv(s) && LogInv(s) && LiveClient(s, c) && c'.id == s.clients[c].id && c'.live
    requires Sent(c') == Sent(s.clients[c]) + [f]
    requires f.id == c'.id && WellSized(f) && (Opens(f.kind) <==> Sent(s.clients[c]) == [])
    ensures LogInv(Logged(s, c, c', f))
  {
    var e, s' := Entry(f, c), Logged(s, c, c', f);
    forall k | 0 <= k < |s'.log|
      ensures LogAt(s', k)
    {
      LoggedAt(s, c, c', f, k);
    }
    forall i | 0 <= i < |s'.clients|
      ensures Of(s'.log, i) == Sent(s'.clients[i])
    {
      OfAppend(s.log, e, i);
    }
    forall i: nat | LiveClient(s', i) && Sent(s'.clients[i]) != []
      ensures Last(s'.log, s'.clients[i].id) == Some(i)
    {
      LastAppend(s.log, e, s'.clients[i].id);
      assert LiveClient(s, i);
    }
  }

  lemma LoggedAt(s: State, c: nat, c': Client, f: Frame, k: nat)
    requires LogInv(s) && LiveClient(s, c) && c'.id == s.clients[c].id && k <= |s.log|
    requires f.id == c'.id && WellSized(f) && (Opens(f.kind) <==> Sent(s.clients[c]) == [])
    ensures LogAt(Logged(s, c, c', f), k)
  {
    var s' := Logged(s, c, c', f);
    assert s'.log[..k] == s.log[..k];
    if k < |s.log| {
      assert LogAt(s, k);
    } else {
      assert s.log[..k] == s.log;
    }
  }

  /** The log invariant only looks at the log, at ids, at what each stream has handed over and at who is live. */
  lemma SameLog(s: State, s': State)
    requires LogInv(s) && s'.log == s.log && |s.clients| <= |s'.clients|
    requires forall c :: 0 <= c < |s.clients| ==>
               s'.clients[c].id == s.clients[c].id && Sent(s'.clients[c]) == Sent(s.clients[c]) &&
               (s'.clients[c].live ==> s.clients[c].live)
    requires forall c :: |s.clients| <= c < |s'.clients| ==> Sent(s'.clients[c]) == []
    ensures LogInv(s')
  {
    forall k | 0 <= k < |s'.log|
      ensures LogAt(s', k)
    {
      assert LogAt(s, k);
    }
    forall c | |s.clients| <= c < |s'.clients|
      ensures Of(s'.log, c) == []
    {
      forall k | 0 <= k < |s.log| ensures s.log[k].owner != c { assert LogAt(s, k); }
      OfUnknown(s.log, c);
    }
    forall c: nat | LiveClient(s', c) && Sent(s'.clients[c]) != []
      ensures Last(s'.log, s'.clients[c].id) == Some(c)
    {
      assert LiveClient(s, c);
    }
  }

  /** Steps of the client do not touch the server. */
  lemma SameServer(s: State, s': State)
    requires s.received <= |s.log| && ServerInv(s) && s.log <= s'.log && |s.clients| <= |s'.clients|
    requires s'.sessions == s.sessions && s'.serverSlots == s.serverSlots && s'.received == s.received
             && s'.stopped == s.stopped
    requires forall c :: 0 <= c < |s.clients| ==> s'.clients[c].id == s.clients[c].id
    ensures ServerInv(s')
  {
    assert s'.log[..s'.received] == s.log[..s.received];
    forall m | 0 <= m < |s'.sessions|
      ensures SessionInv(s', m)
    {
      assert SessionInv(s, m);
      assert Active(s', m) == Active(s, m);
    }
  }

  lemma SameClients(s: State, s': State, c: nat)
    requires ClientsInv(s) && LiveClient(s, c) && s'.clientSlots == s.clientSlots
    requires |s'.clients| == |s.clients| && s'.clients[c].id == s.clients[c].id && s'.clients[c].live
             && s'.clients[c].begun
    requires s'.clients == s.clients[c := s'.clients[c]]
    ensures ClientsInv(s')
  {
    assert forall i: nat :: LiveClient(s', i) <==> LiveClient(s, i);
  }

  // ---- every step keeps the invariant ----

  lemma PutLogInv(s: State, c: nat, c': Client)
    requires ClientsInv(s) && LogInv(s) && LiveClient(s, c) && c'.id == s.clients[c].id && c'.live
    requires Sent(c') == Sent(s.clients[c]) ||
             (|Sent(c')| > 0 && Sent(c')[..|Sent(c')| - 1] == Sent(s.clients[c]) &&
              var f := Sent(c')[|Sent(c')| - 1];
              f.id == c'.id && WellSized(f) && (Opens(f.kind) <==> Sent(s.clients[c]) == []))
    ensures LogInv(Put(s, c, c'))
  {
    PutLog(s, c, c');
    if Sent(c') == Sent(s.clients[c]) {
      SameLog(s, Put(s, c, c'));
    } else {
      var f := Sent(c')[|Sent(c')| - 1];
      assert Sent(c') == Sent(s.clients[c]) + [f];
      PutKeepsLog(s, c, c', f);
      SameLog(Logged(s, c, c', f), Put(s, c, c'));
    }
  }

  lemma PutWire(s: State, c: nat, c': Client)
    requires WireInv(s) && LiveClient(s, c)
    requires Sent(c') == Sent(s.clients[c]) || (|Sent(c')| > 0 && Sent(c')[..|Sent(c')| - 1] == Sent(s.clients[c]))
    ensures WireInv(Put(s, c, c')) && s.log <= Put(s, c, c').log
  {
    PutLog(s, c, c');
    if Sent(c') != Sent(s.clients[c]) {
      var e := Entry(Sent(c')[|Sent(c')| - 1], c);
      var log' := s.log + [e];
      assert log'[s.sent..] == s.log[s.sent..] + [e] && log'[s.received..s.sent] == s.log[s.received..s.sent];
    }
  }

  lemma PutInv(s: State, c: nat, c': Client)
    requires Inv(s) && LiveClient(s, c) && c'.id == s.clients[c].id && c'.live && c'.begun
    requires Sent(c') == Sent(s.clients[c]) ||
             (|Sent(c')| > 0 && Sent(c')[..|Sent(c')| - 1] == Sent(s.clients[c]) &&
              var f := Sent(c')[|Sent(c')| - 1];
              f.id == c'.id && WellSized(f) && (Opens(f.kind) <==> Sent(s.clients[c]) == []))
    ensures Inv(Put(s, c, c'))
  {
    SameClients(s, Put(s, c, c'), c);
    PutLogInv(s, c, c');
    PutWire(s, c, c');
    SameServer(s, Put(s, c, c'));
  }

  lemma WriteInv(s: State, step: Step)
    requires Inv(s) && Enabled(s, step) && (step.Write? || step.Flush?)
    ensures Inv(Apply(s, step))
  {
    var x := s.clients[step.c];
    var c' := if step.Write? then x.(begun := true, written := x.written + step.data) else x.(flushed := true);
    HandsOverOne(x, c');
    PutInv(s, step.c, c');
  }

  lemma CreateInv(s: State, id: Byte)
    requires Inv(s) && Enabled(s, Create(id))
    ensures Inv(Apply(s, Create(id)))
  {
    var s' := Apply(s, Create(id));
    assert FullPackets(id, [], 0) == [];
    CreateClients(s, id);
    SameLogCreate(s, id);
    SameServer(s, s');
  }

  lemma CreateClients(s: State, id: Byte)
    requires ClientsInv(s) && Enabled(s, Create(id))
    ensures ClientsInv(Apply(s, Create(id)))
  {
    var s' := Apply(s, Create(id));
    assert forall i: nat :: LiveClient(s', i) <==> LiveClient(s, i) || i == |s.clients|;
  }

  lemma SameLogCreate(s: State, id: Byte)
    requires LogInv(s) && Enabled(s, Create(id))
    ensures LogInv(Apply(s, Create(id)))
  {
    var s' := Apply(s, Create(id));
    assert Sent(s'.clients[|s.clients|]) == [];
    SameLog(s, s');
  }

  lemma DeleteClients(s: State, c: nat)
    requires ClientsInv(s) && Enabled(s, Delete(c))
    ensures ClientsInv(Apply(s, Delete(c)))
  {
    var s' := Apply(s, Delete(c));
    assert forall i: nat :: LiveClient(s', i) <==> LiveClient(s, i) && i != c;
  }

  lemma DeleteInv(s: State, c: nat)
    requires Inv(s) && Enabled(s, Delete(c))
    ensures Inv(Apply(s, Delete(c)))
  {
    var s' := Apply(s, Delete(c));
    DeleteClients(s, c);
    SameLog(s, s');
    SameServer(s, s');
  }

  lemma TransmitWire(s: State)
    requires WireInv(s) && Enabled(s, Transmit)
    ensures WireInv(Apply(s, Transmit))
  {
    var s' := Apply(s, Transmit);
    var flying, e := s.log[s.received..s.sent], s.log[s.sent];
    assert s'.log[s'.received..s'.sent] == flying + [e];
    assert Frames(flying + [e]) == Frames(flying) + [e.frame];
    EncodeFramesAppend(Frames(flying), e.frame);
    assert s.log[s.sent..][1..] == s'.log[s'.sent..];
  }

  lemma TransmitInv(s: State)
    requires Inv(s) && Enabled(s, Transmit)
    ensures Inv(Apply(s, Transmit))
  {
    var s' := Apply(s, Transmit);
    assert ClientsInv(s') by { assert forall i: nat :: LiveClient(s', i) <==> LiveClient(s, i); }
    SameLog(s, s');
    TransmitWire(s);
    SameServer(s, s');
  }

  /** While the reader runs, what it decodes is the next packet of the log. */
  lemma NextFrame(s: State)
    requires WireInv(s) && LogInv(s) && Enabled(s, Receive)
    ensures s.received < s.sent
    ensures DecodeFrame(s.wire) == Got(s.log[s.received].frame, EncodeFrames(Frames(s.log[s.received + 1..s.sent])))
  {
    var flying := s.log[s.received..s.sent];
    if flying == [] {
      assert false;
    } else {
      assert LogAt(s, s.received);
      var fs := Frames(flying);
      assert fs[1..] == Frames(s.log[s.received + 1..s.sent]);
      FrameRoundTrip(fs[0], EncodeFrames(fs[1..]));
    }
  }

  lemma ReceiveWire(s: State)
    requires WireInv(s) && LogInv(s) && Enabled(s, Receive)
    ensures WireInv(Apply(s, Receive))
  {
    NextFrame(s);
  }

  /** A packet read by the server belongs to the client stream that opened the session it is pushed to, and an
      opening packet belongs to a client stream that has opened no session before. */
  lemma RightOwner(s: State, m: nat)
    requires Inv(s) && !s.stopped && s.received < |s.log| && m < |s.sessions|
    ensures var e := s.log[s.received];
            && (Opens(e.frame.kind) ==> e.owner != s.sessions[m].owner)
            && (!Opens(e.frame.kind) && Active(s, m) && s.sessions[m].id == e.frame.id ==>
              e.owner == s.sessions[m].owner)
  {
    assert LogAt(s, s.received) && SessionInv(s, m);
  }

  lemma LogStep(s: State)
    requires s.received < |s.log|
    ensures s.log[..s.received + 1] == s.log[..s.received] + [s.log[s.received]]
  {
  }

  /** A session other than the one a packet is dispatched to stays as it is. */
  lemma OtherSession(s: State, s': State, m: nat)
    requires Inv(s) && !s.stopped && s.received < |s.log| && m < |s.sessions| && m < |s'.sessions|
    requires s'.sessions[m] == s.sessions[m] && s'.log == s.log && s'.clients == s.clients
             && s'.received == s.received + 1
    requires Active(s', m) ==> Active(s, m)
    requires s.log[s.received].owner != s.sessions[m].owner || s'.stopped
    requires Active(s, m) && !s'.stopped ==> s.log[s.received].frame.id != s.sessions[m].id
    ensures SessionInv(s', m)
  {
    var x, e, log := s.sessions[m], s.log[s.received], s.log[..s.received];
    assert SessionInv(s, m);
    LogStep(s);
    OfAppend(log, e, x.owner);
    LastAppend(log, e, x.id);
  }

  /** The state after an opening packet e has been accepted. */
  function Opened(s: State, e: Entry, rest: seq<Byte>): State {
    s.(sessions := s.sessions + [Session(e.frame.id, e.owner, [e.frame], Reader(None, [e.frame]), [])],
       serverSlots := s.serverSlots[e.frame.id := |s.sessions|], wire := rest, received := s.received + 1)
  }

  lemma NewSession(s: State, rest: seq<Byte>)
    requires s.received < |s.log| && LogAt(s, s.received)
    requires var f := s.log[s.received].frame; Opens(f.kind) && f.id !in s.serverSlots
    ensures SessionInv(Opened(s, s.log[s.received], rest), |s.sessions|)
  {
    var log, e := s.log[..s.received], s.log[s.received];
    LogStep(s);
    OfAppend(log, e, e.owner);
    LastAppend(log, e, e.frame.id);
    assert [e.frame][1..] == [];
  }

  lemma OpenInv(s: State, rest: seq<Byte>)
    requires Inv(s) && !s.stopped && s.received < |s.log|
    requires var f := s.log[s.received].frame; Opens(f.kind) && f.id !in s.serverSlots
    ensures ServerInv(Opened(s, s.log[s.received], rest))
  {
    var e := s.log[s.received];
    assert LogAt(s, s.received);
    NewSession(s, rest);
    forall m | 0 <= m < |s.sessions|
      ensures SessionInv(Opened(s, e, rest), m) && s.sessions[m].owner != e.owner
    {
      OpenedOther(s, rest, m);
    }
    OpenedSlots(s, e, rest);
    OpenedOwners(s, e, rest);
  }

  lemma OpenedOwners(s: State, e: Entry, rest: seq<Byte>)
    requires forall m, n :: 0 <= m < n < |s.sessions| ==> s.sessions[m].owner != s.sessions[n].owner
    requires forall m :: 0 <= m < |s.sessions| ==> s.sessions[m].owner != e.owner
    ensures var t := Opened(s, e, rest);
            forall m, n :: 0 <= m < n < |t.sessions| ==> t.sessions[m].owner != t.sessions[n].owner
  {
  }

  lemma OpenedOther(s: State, rest: seq<Byte>, m: nat)
    requires Inv(s) && !s.stopped && s.received < |s.log| && m < |s.sessions|
    requires var f := s.log[s.received].frame; Opens(f.kind) && f.id !in s.serverSlots
    ensures SessionInv(Opened(s, s.log[s.received], rest), m) && s.sessions[m].owner != s.log[s.received].owner
  {
    RightOwner(s, m);
    OpenedActive(s, s.log[s.received], rest, m);
    OtherSession(s, Opened(s, s.log[s.received], rest), m);
  }

  lemma OpenedActive(s: State, e: Entry, rest: seq<Byte>, m: nat)
    requires m < |s.sessions| && e.frame.id !in s.serverSlots
    ensures Active(Opened(s, e, rest), m) <==> Active(s, m)
    ensures Active(s, m) ==> s.sessions[m].id != e.frame.id
  {
  }

  lemma OpenedSlots(s: State, e: Entry, rest: seq<Byte>)
    requires s.received < |s.log| && ServerInv(s)
    ensures var s' := Opened(s, e, rest);
            forall id :: id in s'.serverSlots ==>
              s'.serverSlots[id] < |s'.sessions| && s'.sessions[s'.serverSlots[id]].id == id
  {
  }

  lemma PushedSource(x: Session, f: Frame)
    requires SourceInv(x) && !Opens(f.kind)
    ensures SourceInv(Push(x, f))
  {
    PayloadsAppend(x.pushed, f);
    PayloadsAppend(x.source.queue, f);
  }

  /** The state after a continuing packet e has been pushed to session t. */
  function Continued(s: State, t: nat, e: Entry, rest: seq<Byte>): State
    requires t < |s.sessions|
  {
    s.(sessions := s.sessions[t := Push(s.sessions[t], e.frame)], wire := rest, received := s.received + 1)
  }

  lemma ContinueTarget(s: State, t: nat, rest: seq<Byte>)
    requires s.received < |s.log| && t < |s.sessions| && SessionInv(s, t) && Active(s, t) && !s.stopped
    requires var e := s.log[s.received];
             !Opens(e.frame.kind) && e.frame.id == s.sessions[t].id && e.owner == s.sessions[t].owner
    ensures SessionInv(Continued(s, t, s.log[s.received], rest), t)
  {
    var e, log := s.log[s.received], s.log[..s.received];
    LogStep(s);
    OfAppend(log, e, e.owner);
    LastAppend(log, e, e.frame.id);
    PushedSource(s.sessions[t], e.frame);
  }

  lemma ContinueOther(s: State, t: nat, rest: seq<Byte>, m: nat)
    requires Inv(s) && s.received < |s.log| && t < |s.sessions| && Active(s, t) && !s.stopped && m < |s.sessions|
             && m != t
    requires var e := s.log[s.received]; e.frame.id == s.sessions[t].id && e.owner == s.sessions[t].owner
    ensures SessionInv(Continued(s, t, s.log[s.received], rest), m)
  {
    var s' := Continued(s, t, s.log[s.received], rest);
    assert s.sessions[m].owner != s.sessions[t].owner by {
      if m < t { assert s.sessions[m].owner != s.sessions[t].owner; }
    }
    OtherSession(s, s', m);
  }

  lemma ContinueInv(s: State, t: nat, rest: seq<Byte>)
    requires Inv(s) && s.received < |s.log| && t < |s.sessions| && Active(s, t) && !s.stopped
    requires var f := s.log[s.received].frame; !Opens(f.kind) && f.id == s.sessions[t].id
    ensures ServerInv(Continued(s, t, s.log[s.received], rest))
  {
    var s' := Continued(s, t, s.log[s.received], rest);
    RightOwner(s, t);
    assert SessionInv(s, t);
    forall m | 0 <= m < |s.sessions|
      ensures SessionInv(s', m)
    {
      if m == t {
        ContinueTarget(s, t, rest);
      } else {
        ContinueOther(s, t, rest, m);
      }
    }
    assert forall m :: 0 <= m < |s.sessions| ==>
        s'.sessions[m].owner == s.sessions[m].owner && s'.sessions[m].id == s.sessions[m].id;
  }

  lemma RefuseInv(s: State)
    requires Inv(s) && Enabled(s, Receive)
    requires var f := s.log[s.received].frame; Opens(f.kind) <==> f.id in s.serverSlots
    ensures ServerInv(Apply(s, Receive))
  {
    var s' := Apply(s, Receive);
    NextFrame(s);
    forall m | 0 <= m < |s.sessions|
      ensures SessionInv(s', m)
    {
      OtherSession(s, s', m);
    }
  }

  lemma ReceiveInv(s: State)
    requires Inv(s) && Enabled(s, Receive)
    ensures Inv(Apply(s, Receive))
  {
    var s' := Apply(s, Receive);
    NextFrame(s);
    ReceiveWire(s);
    var f := s.log[s.received].frame;
    if Opens(f.kind) && f.id !in s.serverSlots {
      OpenInv(s, s'.wire);
    } else if !Opens(f.kind) && f.id in s.serverSlots {
      ContinueInv(s, s.serverSlots[f.id], s'.wire);
    } else {
      RefuseInv(s);
    }
    assert ClientsInv(s') by { assert forall i: nat :: LiveClient(s', i) <==> LiveClient(s, i); }
    SameLog(s, s');
  }

  lemma MovedBytes(got: seq<Byte>, data: seq<Byte>, left: seq<Byte>, queued: seq<Byte>, before: seq<Byte>,
    queue: seq<Byte>)
    requires data + left + queued == before + queue
    ensures (got + data) + left + queued == got + before + queue
  {
    assert (got + data) + left + queued == got + (data + left + queued);
    assert got + before + queue == got + (before + queue);
  }

  /** A handler's read moves bytes from the unread part to what it got. */
  lemma HandledSource(x: Session, len: nat)
    requires SourceInv(x)
    ensures var r := ReadBytes(x.source, len); SourceInv(x.(source := r.state, got := x.got + r.data))
  {
    var q, r := x.source.queue, ReadBytes(x.source, len);
    match x.source.cur {
      case Some(c) =>
        DrainConserves(c, q, len);
        MovedBytes(x.got, r.data, r.state.cur.value.unread, Payloads(r.state.queue), c.unread, Payloads(q));
      case None =>
        DrainConserves(Cursor(q[0].kind, q[0].payload), q[1..], len);
        MovedBytes(x.got, r.data, r.state.cur.value.unread, Payloads(r.state.queue), q[0].payload, Payloads(q[1..]));
    }
  }

  lemma DisconnectedSource(x: Session)
    requires SourceInv(x)
    ensures SourceInv(x.(source := x.source.(queue := x.source.queue + [Frame(x.id, End, [])])))
  {
    PayloadsAppend(x.source.queue, Frame(x.id, End, []));
  }

  /** Steps of one handler, and the release of a stream, keep the server's part. */
  lemma SessionStepInv(s: State, s': State, m: nat)
    requires Inv(s) && m < |s.sessions| && |s'.sessions| == |s.sessions|
    requires s'.(sessions := s.sessions, serverSlots := s.serverSlots, stopped := s.stopped) == s
    requires s'.sessions == s.sessions[m := s'.sessions[m]]
    requires s'.sessions[m].(source := s.sessions[m].source, got := s.sessions[m].got) == s.sessions[m]
             && SourceInv(s'.sessions[m])
    requires (s'.stopped == s.stopped || s'.stopped) && s'.serverSlots.Keys <= s.serverSlots.Keys
    requires forall id :: id in s'.serverSlots ==> s'.serverSlots[id] == s.serverSlots[id]
    ensures Inv(s')
  {
    assert ClientsInv(s') by { assert forall i: nat :: LiveClient(s', i) <==> LiveClient(s, i); }
    SameLog(s, s');
    forall k | 0 <= k < |s'.sessions|
      ensures SessionInv(s', k)
    {
      assert SessionInv(s, k);
      assert Active(s', k) ==> Active(s, k);
    }
  }

  lemma StopInv(s: State)
    requires Inv(s)
    ensures Inv(s.(stopped := true))
  {
    var s' := s.(stopped := true);
    assert ClientsInv(s') by { assert forall i: nat :: LiveClient(s', i) <==> LiveClient(s, i); }
    SameLog(s, s');
    forall k | 0 <= k < |s'.sessions|
      ensures SessionInv(s', k)
    {
      assert SessionInv(s, k);
    }
  }

  lemma StepInv(s: State, step: Step)
    requires Inv(s) && Enabled(s, step)
    ensures Inv(Apply(s, step))
  {
    var s' := Apply(s, step);
    match step
    case Create(id) => CreateInv(s, id);
    case Write(c, data) => WriteInv(s, step);
    case Flush(c) => WriteInv(s, step);
    case Delete(c) => DeleteInv(s, c);
    case Transmit => TransmitInv(s);
    case Receive => ReceiveInv(s);
    case ReaderStops => StopInv(s);
    case Handle(m, len) =>
      assert SessionInv(s, m);
      HandledSource(s.sessions[m], len);
      SessionStepInv(s, s', m);
    case Disconnect(m) =>
      assert SessionInv(s, m);
      DisconnectedSource(s.sessions[m]);
      SessionStepInv(s, s', m);
    case Finish(id) =>
      assert SessionInv(s, s.serverSlots[id]);
      SessionStepInv(s, s', s.serverSlots[id]);
  }

  lemma {:induction false} RunInv(s: State, steps: seq<Step>)
    requires Inv(s) && Run(s, steps).Some?
    ensures Inv(Run(s, steps).value)
    decreases |steps|
  {
    if steps != [] {
      StepInv(s, steps[0]);
      RunInv(Apply(s, steps[0]), steps[1..]);
    }
  }

  // ---- what the pipeline guarantees ----

  lemma {:induction false} PayloadsPrefix(fs: seq<Frame>, gs: seq<Frame>)
    requires fs <= gs
    ensures Payloads(fs) <= Payloads(gs)
  {
    if fs != [] {
      PayloadsPrefix(fs[1..], gs[1..]);
    }
  }

  lemma SentPayload(c: Client)
    ensures Payloads(Sent(c)) <= c.written
  {
    if c.flushed {
      Segmentation(c.id, c.written);
    } else {
      FullPacketsPayload(c.id, c.written, FullCount(|c.written|));
    }
  }

  // ---- what the steps say about the streams ----

  /** The bytes that some steps write to client stream c, in order. */
  function WrittenBy(steps: seq<Step>, c: nat): seq<Byte> {
    if steps == [] then []
    else (if steps[0].Write? && steps[0].c == c then steps[0].data else []) + WrittenBy(steps[1..], c)
  }

  /** The ids with which some steps create client streams, in order. */
  function CreatedBy(steps: seq<Step>): seq<Byte> {
    if steps == [] then [] else (if steps[0].Create? then [steps[0].id] else []) + CreatedBy(steps[1..])
  }

  /** What some steps make of a client stream x with number c: it keeps its id, has written what they wrote to it as
      well, is flushed once they flush it, and lives until they delete it. */
  ghost predicate Becomes(x: Client, y: Client, steps: seq<Step>, c: nat) {
    && y.id == x.id && y.written == x.written + WrittenBy(steps, c)
    && (y.flushed <==> x.flushed || Flush(c) in steps) && (y.live <==> x.live && Delete(c) !in steps)
  }

  lemma BecomesStep(x: Client, y: Client, z: Client, steps: seq<Step>, c: nat)
    requires steps != [] && Becomes(y, z, steps[1..], c)
    requires y.id == x.id && y.written == x.written + if steps[0].Write? && steps[0].c == c then steps[0].data else []
    requires (y.flushed <==> x.flushed || steps[0] == Flush(c)) && (y.live <==> x.live && steps[0] != Delete(c))
    ensures Becomes(x, z, steps, c)
  {
    assert steps == [steps[0]] + steps[1..];
    var d := if steps[0].Write? && steps[0].c == c then steps[0].data else [];
    assert x.written + (d + WrittenBy(steps[1..], c)) == x.written + d + WrittenBy(steps[1..], c);
  }

  lemma {:induction false} OldClient(s: State, steps: seq<Step>, c: nat)
    requires Run(s, steps).Some? && c < |s.clients|
    ensures var t := Run(s, steps).value; c < |t.clients| && Becomes(s.clients[c], t.clients[c], steps, c)
    decreases |steps|
  {
    if steps == [] {
      assert s.clients[c].written + [] == s.clients[c].written;
    } else {
      var t := Apply(s, steps[0]);
      ClientStep(s, steps[0], c);
      OldClient(t, steps[1..], c);
      BecomesStep(s.clients[c], t.clients[c], Run(s, steps).value.clients[c], steps, c);
    }
  }

  function Fresh(id: Byte): Client {
    Client(id, false, [], false, true)
  }

  lemma {:induction false} NewClient(s: State, steps: seq<Step>, c: nat)
    requires Run(s, steps).Some? && |s.clients| <= c < |Run(s, steps).value.clients|
    ensures Created(Run(s, steps).value.clients[c], steps, c - |s.clients|, c)
    decreases |steps|
  {
    if steps != [] {
      var t := Apply(s, steps[0]);
      var z := Run(s, steps).value.clients[c];
      ClientStep(s, steps[0], c);
      if c < |t.clients| {
        OldClient(t, steps[1..], c);
        BecomesStep(t.clients[c], t.clients[c], z, steps, c);
      } else {
        NewClient(t, steps[1..], c);
        CreatedLater(z, steps, c - |t.clients|, c);
      }
    }
  }

  /** Client stream y with number c comes from creation k. */
  ghost predicate Created(y: Client, steps: seq<Step>, k: nat, c: nat) {
    k < |CreatedBy(steps)| && Becomes(Fresh(CreatedBy(steps)[k]), y, steps, c)
  }

  lemma CreatedLater(y: Client, steps: seq<Step>, k: nat, c: nat)
    requires steps != [] && Created(y, steps[1..], k, c)
    requires steps[0] != Flush(c) && steps[0] != Delete(c) && !(steps[0].Write? && steps[0].c == c)
    ensures Created(y, steps, k + (if steps[0].Create? then 1 else 0), c)
  {
    var x := Fresh(CreatedBy(steps[1..])[k]);
    assert x.written + [] == x.written;
    BecomesStep(x, x, y, steps, c);
  }

  lemma ClientStep(s: State, step: Step, c: nat)
    requires Enabled(s, step)
    ensures var t := Apply(s, step);
            && |t.clients| == |s.clients| + (if step.Create? then 1 else 0)
            && (c < |s.clients| ==>
                  && t.clients[c].id == s.clients[c].id
                  && t.clients[c].written ==
                    s.clients[c].written + (if step.Write? && step.c == c then step.data else [])
                  && (t.clients[c].flushed <==> s.clients[c].flushed || step == Flush(c))
                  && (t.clients[c].live <==> s.clients[c].live && step != Delete(c)))
            && (c == |s.clients| && step.Create? ==> t.clients[c] == Fresh(step.id))
            && (c >= |s.clients| ==> step != Flush(c) && step != Delete(c) && !(step.Write? && step.c == c))
  {
  }

  /** The packets that some steps make client stream c put into the queue. */
  function SentBy(steps: seq<Step>, c: nat, id: Byte): seq<Frame> {
    if Flush(c) in steps then Flushed(id, WrittenBy(steps, c)) else Emitted(id, WrittenBy(steps, c))
  }

  lemma SentIs(steps: seq<Step>, c: nat)
    requires Run(INIT, steps).Some? && c < |Run(INIT, steps).value.clients|
    ensures var t := Run(INIT, steps).value;
            && t.clients[c].written == WrittenBy(steps, c) && Sent(t.clients[c]) == SentBy(steps, c, t.clients[c].id)
            && c < |CreatedBy(steps)| && t.clients[c].id == CreatedBy(steps)[c]
  {
    NewClient(INIT, steps, c);
  }

  /** In every run, whatever the interleaving: each server stream serves one client stream, no two serve the
      same; the packets pushed to it are a prefix of those of the bytes written to that client stream, none of anybody
      else's; and the bytes its handler has read are a prefix of the bytes written. */
  lemma Demultiplexing(steps: seq<Step>, m: nat)
    requires Run(INIT, steps).Some? && m < |Run(INIT, steps).value.sessions|
    ensures var s := Run(INIT, steps).value;
            var x := s.sessions[m];
            && x.owner < |CreatedBy(steps)|
            && x.id == CreatedBy(steps)[x.owner]
            && x.pushed <= SentBy(steps, x.owner, x.id)
            && x.got <= WrittenBy(steps, x.owner)
            && (forall n :: 0 <= n < |s.sessions| && n != m ==> s.sessions[n].owner != x.owner)
  {
    RunInv(INIT, steps);
    var s := Run(INIT, steps).value;
    var x := s.sessions[m];
    assert SessionInv(s, m);
    SentIs(steps, x.owner);
    OfPrefix(s.log, s.received, x.owner);
    var c := s.clients[x.owner];
    PayloadsPrefix(x.pushed, Sent(c));
    SentPayload(c);
    assert x.got <= Payloads(x.pushed);
    forall n | 0 <= n < |s.sessions| && n != m
      ensures s.sessions[n].owner != x.owner
    {
      if n < m { assert s.sessions[n].owner != s.sessions[m].owner; }
    }
  }

  lemma NoFrames(fs: seq<Frame>)
    ensures EncodeFrames(fs) == [] ==> fs == []
  {
    if fs != [] {
      assert |EncodeFrames(fs)| >= |EncodeFrame(fs[0])| > 0;
    }
  }

  /** Once everything written to a client stream and flushed has travelled, and the server has neither stopped nor
      released the stream, what the handler has read and what it can still read is exactly what was written. */
  lemma Delivery(steps: seq<Step>, m: nat)
    requires Run(INIT, steps).Some?
    requires var s := Run(INIT, steps).value;
             && !s.stopped && s.queue == [] && s.wire == [] && Active(s, m) && Flush(s.sessions[m].owner) in steps
    ensures var s := Run(INIT, steps).value;
            var x, b := s.sessions[m], WrittenBy(steps, s.sessions[m].owner);
            && x.pushed == Flushed(x.id, b)
            && x.got + (if x.source.cur == None then [] else x.source.cur.value.unread) + Payloads(x.source.queue) == b
  {
    RunInv(INIT, steps);
    var s := Run(INIT, steps).value;
    assert SessionInv(s, m);
    var flying := Frames(s.log[s.received..s.sent]);
    NoFrames(flying);
    assert s.log[..s.received] == s.log;
    SentIs(steps, s.sessions[m].owner);
    Segmentation(s.sessions[m].id, s.clients[s.sessions[m].owner].written);
  }

  // ---- what the server's reader does ----

  ghost predicate Serving(s: State, m: nat, c: nat) {
    Active(s, m) && s.sessions[m].owner == c
  }

  ghost predicate InUse(s: State, m: nat, id: Byte) {
    Active(s, m) && s.sessions[m].id == id
  }

  /** A continuing packet goes to the session of the client stream that sent it, and to no other, as long as that
      session is active; an opening one opens a session for its sender, as long as no session with its id is active. In
      the other cases, and in no others, the reader stops. */
  ghost predicate Receives(s: State, t: State, e: Entry) {
    var continues := e.frame.kind == Middle || e.frame.kind == End;
    && (t.stopped <==> if continues then !exists m: nat :: Serving(s, m, e.owner)
                       else exists m: nat :: InUse(s, m, e.frame.id))
    && (t.stopped ==> t.sessions == s.sessions && t.serverSlots == s.serverSlots)
    && (!t.stopped && continues ==>
          t.serverSlots == s.serverSlots && forall m: nat :: Serving(s, m, e.owner) ==>
            var x := s.sessions[m];
            t.sessions == s.sessions[m := x.(pushed := x.pushed + [e.frame],
                                             source := Reader(x.source.cur, x.source.queue + [e.frame]))])
    && (!t.stopped && !continues ==>
          && t.sessions == s.sessions + [Session(e.frame.id, e.owner, [e.frame], Reader(None, [e.frame]), [])]
          && t.serverSlots == s.serverSlots[e.frame.id := |s.sessions|])
  }

  /** In every reachable state, the frame read next is the next packet put into the queue. */
  lemma Reception(steps: seq<Step>)
    requires Run(INIT, steps).Some? && Enabled(Run(INIT, steps).value, Receive)
    ensures var s := Run(INIT, steps).value;
            var t := Apply(s, Receive);
            && s.received < |s.log| && Receives(s, t, s.log[s.received])
            && t == s.(sessions := t.sessions, serverSlots := t.serverSlots, stopped := t.stopped, wire := t.wire,
                       received := s.received + 1)
  {
    RunInv(INIT, steps);
    var s := Run(INIT, steps).value;
    NextFrame(s);
    SlotsOfNext(s);
    ReceivesNext(s);
  }

  /** The slot of the next packet's id is taken exactly by the sender's session, if the packet continues a sequence. */
  lemma SlotsOfNext(s: State)
    requires Inv(s) && Enabled(s, Receive) && s.received < |s.log|
    ensures var e := s.log[s.received];
            && (e.frame.id in s.serverSlots <==> exists m: nat :: InUse(s, m, e.frame.id))
            && (e.frame.id in s.serverSlots ==> InUse(s, s.serverSlots[e.frame.id], e.frame.id))
            && (!Opens(e.frame.kind) ==>
                  forall m: nat :: Serving(s, m, e.owner) <==> InUse(s, m, e.frame.id))
  {
    var e := s.log[s.received];
    if e.frame.id in s.serverSlots {
      assert InUse(s, s.serverSlots[e.frame.id], e.frame.id);
    }
    if !Opens(e.frame.kind) {
      forall m: nat
        ensures Serving(s, m, e.owner) <==> InUse(s, m, e.frame.id)
      {
        if Active(s, m) {
          RightOwner(s, m);
          assert SessionInv(s, m) && LogAt(s, s.received);
        }
      }
    }
  }

  lemma ReceivesNext(s: State)
    requires Enabled(s, Receive) && s.received < |s.log| && DecodeFrame(s.wire).frame == s.log[s.received].frame
    requires forall id :: id in s.serverSlots ==> s.serverSlots[id] < |s.sessions|
    requires var e := s.log[s.received];
             && (e.frame.id in s.serverSlots <==> exists m: nat :: InUse(s, m, e.frame.id))
             && (e.frame.id in s.serverSlots ==> InUse(s, s.serverSlots[e.frame.id], e.frame.id))
             && (!Opens(e.frame.kind) ==>
                   forall m: nat :: Serving(s, m, e.owner) <==> InUse(s, m, e.frame.id))
    ensures var t := Apply(s, Receive);
            && Receives(s, t, s.log[s.received])
            && t == s.(sessions := t.sessions, serverSlots := t.serverSlots, stopped := t.stopped, wire := t.wire,
                       received := s.received + 1)
  {
    var e, t := s.log[s.received], Apply(s, Receive);
    if Opens(e.frame.kind) {
      assert t == Dispatch(s, e.frame).(wire := t.wire, received := s.received + 1);
    } else if e.frame.id in s.serverSlots {
      assert Serving(s, s.serverSlots[e.frame.id], e.owner);
    }
  }

  /** A session is active until a step finishes one with its id: then its slot is free, and it is never active again. */
  lemma {:induction false} ActiveUntilFinished(s: State, steps: seq<Step>, m: nat)
    requires Inv(s) && m < |s.sessions| && Run(s, steps).Some?
    ensures var t := Run(s, steps).value;
            && m < |t.sessions| && t.sessions[m].id == s.sessions[m].id
            && (Active(t, m) <==> Active(s, m) && Finish(s.sessions[m].id) !in steps)
    decreases |steps|
  {
    if steps != [] {
      StepInv(s, steps[0]);
      ActiveStep(s, steps[0], m);
      ActiveUntilFinished(Apply(s, steps[0]), steps[1..], m);
      assert steps == [steps[0]] + steps[1..];
    }
  }

  lemma ActiveStep(s: State, step: Step, m: nat)
    requires m < |s.sessions| && Enabled(s, step)
    requires forall id :: id in s.serverSlots ==>
               s.serverSlots[id] < |s.sessions| && s.sessions[s.serverSlots[id]].id == id
    ensures var t := Apply(s, step);
            && m < |t.sessions| && t.sessions[m].id == s.sessions[m].id
            && (Active(t, m) <==> Active(s, m) && step != Finish(s.sessions[m].id))
  {
    match step
    case Create(_) => case Write(_, _) => case Flush(_) => case Delete(_) => case Transmit => case Receive =>
    case ReaderStops => case Handle(_, _) => case Disconnect(_) => case Finish(_) =>
  }

  // ---- a disconnected stream ----

  /** The session can read up to the end of a closed sequence, and has then read these bytes. */
  ghost predicate Cut(x: Session, bytes: seq<Byte>) {
    ClosedOff(x.source) && x.got + Readable(x.source) == bytes
  }

  lemma CutPush(x: Session, f: Frame, bytes: seq<Byte>)
    requires Cut(x, bytes)
    ensures Cut(x.(source := x.source.(queue := x.source.queue + [f])), bytes)
  {
    ClosedPush(x.source, f);
  }

  lemma CutRead(x: Session, len: nat, bytes: seq<Byte>)
    requires Cut(x, bytes)
    ensures var r := ReadBytes(x.source, len); Cut(x.(source := r.state, got := x.got + r.data), bytes)
  {
    ClosedRead(x.source, len);
    var r := ReadBytes(x.source, len);
    assert x.got + r.data + Readable(r.state) == x.got + (r.data + Readable(r.state));
  }

  lemma CutStep(s: State, step: Step, m: nat, bytes: seq<Byte>)
    requires m < |s.sessions| && Enabled(s, step) && Cut(s.sessions[m], bytes)
    ensures var t := Apply(s, step); m < |t.sessions| && Cut(t.sessions[m], bytes)
  {
    var x := s.sessions[m];
    match step
    case Receive => CutPush(x, DecodeFrame(s.wire).frame, bytes);
    case Handle(_, len) => CutRead(x, len, bytes);
    case Disconnect(_) => CutPush(x, Frame(x.id, End, []), bytes);
    case Create(_) => case Write(_, _) => case Flush(_) => case Delete(_) => case Transmit => case ReaderStops =>
    case Finish(_) =>
  }

  lemma {:induction false} CutRun(s: State, steps: seq<Step>, m: nat, bytes: seq<Byte>)
    requires m < |s.sessions| && Run(s, steps).Some? && Cut(s.sessions[m], bytes)
    ensures var t := Run(s, steps).value; m < |t.sessions| && Cut(t.sessions[m], bytes)
    decreases |steps|
  {
    if steps != [] {
      CutStep(s, steps[0], m, bytes);
      CutRun(Apply(s, steps[0]), steps[1..], m, bytes);
    }
  }

  lemma DisconnectCuts(x: Session) returns (bytes: seq<Byte>)
    requires SourceInv(x)
    ensures Cut(x.(source := x.source.(queue := x.source.queue + [Frame(x.id, End, [])])), bytes)
    ensures bytes <= Payloads(x.pushed)
  {
    var q, f := x.source.queue, Frame(x.id, End, []);
    var c := if x.source.cur.Some? then x.source.cur.value else Cursor(q[0].kind, q[0].payload);
    var rest := if x.source.cur.Some? then q else q[1..];
    assert x.source.cur.None? ==> (q + [f])[1..] == rest + [f];
    ReachClosing(c, rest, f);
    bytes := x.got + (c.unread + Payloads((rest + [f])[..Reach(c, rest + [f])]));
    PayloadsPrefix((rest + [f])[..Reach(c, rest + [f])], rest + [f]);
    PayloadsAppend(rest, f);
    assert x.got + (c.unread + Payloads(rest)) == Payloads(x.pushed);
  }

  /** A disconnected stream yields nothing that arrives later: whatever its handler has read in the end had been pushed
      to it before it was disconnected. */
  lemma NothingAfterDisconnect(steps: seq<Step>, m: nat, after: seq<Step>)
    requires Run(INIT, steps).Some? && Enabled(Run(INIT, steps).value, Disconnect(m))
    requires Run(Apply(Run(INIT, steps).value, Disconnect(m)), after).Some?
    ensures var s, t := Run(INIT, steps).value, Run(Apply(Run(INIT, steps).value, Disconnect(m)), after).value;
            m < |t.sessions| && t.sessions[m].got <= Payloads(s.sessions[m].pushed)
  {
    RunInv(INIT, steps);
    var s := Run(INIT, steps).value;
    assert SessionInv(s, m);
    var bytes := DisconnectCuts(s.sessions[m]);
    CutRun(Apply(s, Disconnect(m)), after, m, bytes);
  }

  // ---- a request arrives ----

  lemma {:induction false} RunOn(s: State, a: seq<Step>, b: seq<Step>)
    requires Run(s, a).Some?
    ensures Run(s, a + b) == Run(Run(s, a).value, b)
    decreases |a|
  {
    if a == [] {
      assert a + b == b;
    } else {
      assert (a + b)[1..] == a[1..] + b;
      RunOn(Apply(s, a[0]), a[1..], b);
    }
  }

  function Writes(c: nat, pieces: seq<seq<Byte>>): seq<Step> {
    if pieces == [] then [] else [Write(c, pieces[0])] + Writes(c, pieces[1..])
  }

  function Times(n: nat, step: Step): seq<Step> {
    if n == 0 then [] else [step] + Times(n - 1, step)
  }

  function Reads(m: nat, lens: seq<nat>): seq<Step> {
    if lens == [] then [] else [Handle(m, lens[0])] + Reads(m, lens[1..])
  }

  ghost predicate Pieces(pieces: seq<seq<Byte>>) {
    forall d :: d in pieces ==> |d| <= MAX_PACKET_SIZE
  }

  /** Only the queue, its history and what client stream c has done differ. */
  ghost predicate OnlySends(s: State, t: State, c: nat, x: Client) {
    c < |s.clients| && t == s.(clients := s.clients[c := x], queue := t.queue, log := t.log)
  }

  lemma WriteOne(s: State, c: nat, d: seq<Byte>)
    requires LiveClient(s, c) && !s.clients[c].flushed && |d| <= MAX_PACKET_SIZE
    ensures Enabled(s, Write(c, d))
    ensures var x := s.clients[c];
            OnlySends(s, Apply(s, Write(c, d)), c, x.(begun := true, written := x.written + d))
  {
    assert FullCount(|s.clients[c].written + d|) <= FullCount(|s.clients[c].written|) + 1;
  }

  /** The client after it has written the pieces. */
  function Wrote(x: Client, pieces: seq<seq<Byte>>): Client {
    x.(begun := x.begun || pieces != [], written := x.written + Concat(pieces))
  }

  lemma WroteMore(x: Client, pieces: seq<seq<Byte>>)
    requires pieces != []
    ensures Wrote(x, pieces) == Wrote(x.(begun := true, written := x.written + pieces[0]), pieces[1..])
  {
    assert x.written + pieces[0] + Concat(pieces[1..]) == x.written + Concat(pieces);
  }

  lemma SendsOn(s: State, t: State, u: State, c: nat, x: Client, y: Client)
    requires OnlySends(s, t, c, x) && OnlySends(t, u, c, y)
    ensures OnlySends(s, u, c, y)
  {
  }

  lemma {:induction false} WriteAll(s: State, c: nat, pieces: seq<seq<Byte>>)
    requires LiveClient(s, c) && !s.clients[c].flushed && Pieces(pieces)
    ensures Run(s, Writes(c, pieces)).Some?
    ensures OnlySends(s, Run(s, Writes(c, pieces)).value, c, Wrote(s.clients[c], pieces))
    decreases |pieces|
  {
    var x := s.clients[c];
    if pieces == [] {
      assert x.written + [] == x.written && s.clients[c := x] == s.clients;
    } else {
      var t := Apply(s, Write(c, pieces[0]));
      WriteOne(s, c, pieces[0]);
      WriteAll(t, c, pieces[1..]);
      RunCons(s, Write(c, pieces[0]), Writes(c, pieces[1..]));
      WroteMore(x, pieces);
      SendsOn(s, t, Run(t, Writes(c, pieces[1..])).value, c, t.clients[c], Wrote(x, pieces));
    }
  }

  lemma RunCons(s: State, step: Step, rest: seq<Step>)
    requires Enabled(s, step)
    ensures Run(s, [step] + rest) == Run(Apply(s, step), rest)
  {
    assert ([step] + rest)[1..] == rest;
  }

  /** Everything in the queue is written to the wire. */
  lemma {:induction false} TransmitAll(s: State)
    ensures Run(s, Times(|s.queue|, Transmit)).Some?
    ensures var t := Run(s, Times(|s.queue|, Transmit)).value;
            t == s.(queue := [], wire := t.wire, sent := s.sent + |s.queue|)
    decreases |s.queue|
  {
    if s.queue != [] {
      var t := Apply(s, Transmit);
      TransmitAll(t);
      assert Times(|s.queue|, Transmit)[1..] == Times(|t.queue|, Transmit);
    }
  }

  ghost predicate Reached(s: State) {
    exists steps :: Run(INIT, steps) == Some(s)
  }

  lemma ReachedInv(s: State)
    requires Reached(s)
    ensures Inv(s)
  {
    var steps :| Run(INIT, steps) == Some(s);
    RunInv(INIT, steps);
  }

  lemma ReachedNext(s: State, step: Step)
    requires Reached(s) && Enabled(s, step)
    ensures Reached(Apply(s, step))
  {
    var steps :| Run(INIT, steps) == Some(s);
    RunCons(s, step, []);
    RunOn(INIT, steps, [step]);
    assert [step] + [] == [step];
  }

  lemma CanReceive(s: State)
    requires LogInv(s) && WireInv(s) && !s.stopped && s.received < s.sent
    ensures Enabled(s, Receive)
  {
    var flying := s.log[s.received..s.sent];
    assert LogAt(s, s.received);
    var fs := Frames(flying);
    FrameRoundTrip(fs[0], EncodeFrames(fs[1..]));
  }

  /** The only client stream has sent everything, and the server has read some of it: what it has read is in the queue
      of its only session. */
  ghost predicate Arriving(s: State, id: Byte) {
    && Reached(s) && |s.clients| == 1 && s.clients[0].id == id && s.clients[0].flushed
    && s.queue == [] && s.received <= s.sent == |s.log| && !s.stopped
    && (if s.received == 0 then s.sessions == [] && s.serverSlots == map[]
        else
          var fs := Frames(s.log[..s.received]);
          s.sessions == [Session(id, 0, fs, Reader(None, fs), [])] && s.serverSlots == map[id := 0])
  }

  lemma OnlyFirstOpens(s: State)
    requires LogInv(s) && |s.clients| == 1 && s.received < |s.log|
    ensures var e := s.log[s.received];
            e.owner == 0 && e.frame.id == s.clients[0].id && (Opens(e.frame.kind) <==> s.received == 0)
  {
    assert LogAt(s, s.received);
    if s.received > 0 {
      assert LogAt(s, s.received - 1);
      assert s.log[..s.received][..s.received - 1] == s.log[..s.received - 1];
    }
  }

  lemma ArriveOne(s: State, id: Byte)
    requires Arriving(s, id) && s.received < |s.log|
    ensures Enabled(s, Receive) && Arriving(Apply(s, Receive), id)
    ensures Apply(s, Receive).log == s.log && Apply(s, Receive).received == s.received + 1
    ensures Apply(s, Receive).clients == s.clients
  {
    ArriveNext(s, id);
    ReachedNext(s, Receive);
    ArriveShape(s, id);
    FramesOn(s.log, s.received);
  }

  lemma ArriveNext(s: State, id: Byte)
    requires Arriving(s, id) && s.received < |s.log|
    ensures Enabled(s, Receive) && DecodeFrame(s.wire).frame == s.log[s.received].frame
    ensures var e := s.log[s.received];
            e.owner == 0 && e.frame.id == id && (Opens(e.frame.kind) <==> s.received == 0)
  {
    ReachedInv(s);
    CanReceive(s);
    NextFrame(s);
    OnlyFirstOpens(s);
  }

  lemma FramesOn(log: seq<Entry>, k: nat)
    requires k < |log|
    ensures Frames(log[..k + 1]) == Frames(log[..k]) + [log[k].frame]
    ensures k == 0 ==> Frames(log[..k + 1]) == [log[k].frame]
  {
  }

  lemma ArriveShape(s: State, id: Byte)
    requires Enabled(s, Receive) && s.received < |s.log| && DecodeFrame(s.wire).frame == s.log[s.received].frame
    requires var e := s.log[s.received];
             e.owner == 0 && e.frame.id == id && (Opens(e.frame.kind) <==> s.received == 0)
    requires if s.received == 0 then s.sessions == [] && s.serverSlots == map[]
             else |s.sessions| == 1 && s.serverSlots == map[id := 0]
    ensures var t, e := Apply(s, Receive), s.log[s.received];
            && t == s.(sessions := t.sessions, serverSlots := map[id := 0], wire := t.wire, received := s.received + 1)
            && t.sessions == if s.received == 0 then [Session(id, 0, [e.frame], Reader(None, [e.frame]), [])]
                             else [Push(s.sessions[0], e.frame)]
  {
  }

  lemma {:induction false} ArriveAll(s: State, id: Byte)
    requires Arriving(s, id)
    ensures var steps := Times(|s.log| - s.received, Receive);
            && Run(s, steps).Some?
            && var t := Run(s, steps).value;
               Arriving(t, id) && t.received == |t.log| && t.clients == s.clients && t.log == s.log
    decreases |s.log| - s.received
  {
    if s.received < |s.log| {
      ArriveOne(s, id);
      ArriveAll(Apply(s, Receive), id);
      RunCons(s, Receive, Times(|s.log| - s.received - 1, Receive));
    }
  }

  lemma HandleOne(s: State, m: nat, len: nat)
    requires Active(s, m)
    ensures var r, t := ReadBytes(s.sessions[m].source, len), Apply(s, Handle(m, len));
            && t == s.(sessions := t.sessions) && |t.sessions| == |s.sessions| && Active(t, m)
            && t.sessions[m].id == s.sessions[m].id && t.sessions[m].source == r.state
            && t.sessions[m].got == s.sessions[m].got + r.data
  {
  }

  lemma {:induction false} HandleAll(s: State, m: nat, lens: seq<nat>)
    requires Active(s, m) && ReadMany(s.sessions[m].source, lens).Some?
    ensures Run(s, Reads(m, lens)).Some?
    ensures var t := Run(s, Reads(m, lens)).value;
            && t == s.(sessions := t.sessions) && |t.sessions| == |s.sessions| && Active(t, m)
            && t.sessions[m].id == s.sessions[m].id
            && t.sessions[m].got == s.sessions[m].got + Concat(ReadMany(s.sessions[m].source, lens).value.0)
    decreases |lens|
  {
    var x := s.sessions[m];
    if lens == [] {
      assert x.got + [] == x.got;
    } else {
      var t := Apply(s, Handle(m, lens[0]));
      HandleOne(s, m, lens[0]);
      HandleAll(t, m, lens[1..]);
      RunCons(s, Handle(m, lens[0]), Reads(m, lens[1..]));
      GotMore(x.source, x.got, lens);
    }
  }

  lemma GotMore(r: Reader, got: seq<Byte>, lens: seq<nat>)
    requires lens != [] && ReadMany(r, lens).Some?
    ensures var first := ReadBytes(r, lens[0]);
            && ReadMany(first.state, lens[1..]).Some?
            && got + Concat(ReadMany(r, lens).value.0)
               == got + first.data + Concat(ReadMany(first.state, lens[1..]).value.0)
  {
    var first := ReadBytes(r, lens[0]);
    var (datas, after) := ReadMany(first.state, lens[1..]).value;
    ConcatCons(got, first.data, datas);
    assert ReadMany(r, lens) == Some(([first.data] + datas, after));
  }

  lemma ConcatCons(got: seq<Byte>, data: seq<Byte>, datas: seq<seq<Byte>>)
    ensures got + Concat([data] + datas) == got + data + Concat(datas)
  {
    assert ([data] + datas)[1..] == datas;
  }

  /** One request: a client stream is created, the pieces are written to it, it is flushed, its n packets travel, and
      the handler reads. */
  function Request(id: Byte, pieces: seq<seq<Byte>>, n: nat, lens: seq<nat>): seq<Step> {
    [Create(id)] + Writes(0, pieces) + [Flush(0)] + Times(n, Transmit) + Times(n, Receive) + Reads(0, lens)
  }

  /** A request arrives: for any bytes, in any pieces that fit a packet, and any lengths the handler asks for within
      them, there is such a run, and the handler gets the bytes asked for. */
  lemma RequestArrives(id: Byte, pieces: seq<seq<Byte>>, lens: seq<nat>) returns (n: nat)
    requires pieces != [] && Pieces(pieces) && lens != [] && Sum(lens) <= |Concat(pieces)|
    ensures n == |Flushed(id, Concat(pieces))| && Run(INIT, Request(id, pieces, n, lens)).Some?
    ensures var t := Run(INIT, Request(id, pieces, n, lens)).value;
            && |t.sessions| == 1 && t.sessions[0].got == Concat(pieces)[..Sum(lens)]
            && t.sessions[0].id == id && Active(t, 0)
            && |t.clients| == 1 && t.clients[0].id == id && t.clients[0].live && !t.stopped
  {
    var steps, s := SendRequest(id, pieces);
    n := |s.queue|;
    var t := DeliverRequest(id, steps, s);
    var fs := t.sessions[0].pushed;
    WriteThenRead(id, Concat(pieces), [], lens);
    assert fs + [] == fs;
    HandleAll(t, 0, lens);
    RunOn(INIT, steps + Times(n, Transmit) + Times(n, Receive), Reads(0, lens));
    assert [] + Concat(ReadMany(Reader(None, fs), lens).value.0) == Concat(pieces)[..Sum(lens)];
  }

  /** The request has been written and flushed, and none of it has left the queue. */
  ghost predicate Queued(s: State, id: Byte, b: seq<Byte>) {
    && s.clients == [Client(id, true, b, true, true)] && s.sent == 0 && s.received == 0 && !s.stopped
    && s.sessions == [] && s.serverSlots == map[] && |s.queue| == |s.log| == |Flushed(id, b)|
  }

  lemma SendRequest(id: Byte, pieces: seq<seq<Byte>>) returns (steps: seq<Step>, s: State)
    requires pieces != [] && Pieces(pieces)
    ensures steps == [Create(id)] + Writes(0, pieces) + [Flush(0)] && Run(INIT, steps) == Some(s)
    ensures Queued(s, id, Concat(pieces))
  {
    var written := WriteFirst(id, pieces);
    s := FlushFirst(written, id, Concat(pieces));
    RunCons(written, Flush(0), []);
    steps := [Create(id)] + Writes(0, pieces) + [Flush(0)];
    RunOn(INIT, [Create(id)] + Writes(0, pieces), [Flush(0)]);
    InitInv();
    RunInv(INIT, steps);
    OneOwner(s);
    AllQueued(s);
  }

  lemma InitInv()
    ensures Inv(INIT)
  {
  }

  lemma AllQueued(s: State)
    requires WireInv(s) && s.sent == 0
    ensures |s.queue| == |s.log|
  {
  }

  lemma WriteFirst(id: Byte, pieces: seq<seq<Byte>>) returns (s: State)
    requires pieces != [] && Pieces(pieces)
    ensures Run(INIT, [Create(id)] + Writes(0, pieces)) == Some(s)
    ensures OnlySends(Apply(INIT, Create(id)), s, 0, Client(id, true, Concat(pieces), false, true))
  {
    var made := Apply(INIT, Create(id));
    RunCons(INIT, Create(id), []);
    assert [Create(id)] + [] == [Create(id)];
    WriteAll(made, 0, pieces);
    s := Run(made, Writes(0, pieces)).value;
    RunOn(INIT, [Create(id)], Writes(0, pieces));
    assert [] + Concat(pieces) == Concat(pieces);
  }

  lemma FlushFirst(s: State, id: Byte, b: seq<Byte>) returns (t: State)
    requires OnlySends(Apply(INIT, Create(id)), s, 0, Client(id, true, b, false, true))
    ensures Enabled(s, Flush(0)) && t == Apply(s, Flush(0))
    ensures t.clients == [Client(id, true, b, true, true)] && t.sent == t.received == 0 && !t.stopped
    ensures t.sessions == [] && t.serverSlots == map[]
  {
    t := Apply(s, Flush(0));
  }

  lemma {:induction false} OfOnly(log: seq<Entry>, c: nat)
    requires forall e :: e in log ==> e.owner == c
    ensures Of(log, c) == Frames(log)
  {
    if log != [] {
      OfOnly(log[..|log| - 1], c);
    }
  }

  lemma OneOwner(s: State)
    requires LogInv(s) && |s.clients| == 1
    ensures Frames(s.log) == Sent(s.clients[0])
  {
    forall e | e in s.log
      ensures e.owner == 0
    {
      var k :| 0 <= k < |s.log| && s.log[k] == e;
      assert LogAt(s, k);
    }
    OfOnly(s.log, 0);
  }

  lemma DeliverRequest(id: Byte, steps: seq<Step>, s: State) returns (t: State)
    requires Run(INIT, steps) == Some(s) && |s.clients| == 1 && Queued(s, id, s.clients[0].written)
    ensures Run(INIT, steps + Times(|s.queue|, Transmit) + Times(|s.queue|, Receive)) == Some(t)
    ensures var fs := Flushed(id, s.clients[0].written);
            && t.sessions == [Session(id, 0, fs, Reader(None, fs), [])] && Active(t, 0) && t.clients == s.clients
            && !t.stopped
  {
    var n := |s.queue|;
    TransmitAll(s);
    var u := Run(s, Times(n, Transmit)).value;
    RunOn(INIT, steps, Times(n, Transmit));
    assert Reached(u);
    assert Arriving(u, id);
    ArriveAll(u, id);
    t := Run(u, Times(n, Receive)).value;
    RunOn(INIT, steps + Times(n, Transmit), Times(n, Receive));
    Arrived(t, id);
  }

  lemma Arrived(t: State, id: Byte)
    requires Arriving(t, id) && t.received == |t.log| > 0
    ensures var fs := Flushed(id, t.clients[0].written);
            t.sessions == [Session(id, 0, fs, Reader(None, fs), [])] && Active(t, 0)
  {
    ReachedInv(t);
    assert t.log[..t.received] == t.log;
    OneOwner(t);
  }
}
