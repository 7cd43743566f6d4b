/** The fibers of one server stream processor, from start to stop: a reader, a writer, and one handler for each
    active request stream, sharing a pool of packets, a writer queue and two events.

    Handlers use their streams as the code asks them to: they write before they flush, and neither after a flush.

    Fibers are cooperative: a step is what a fiber does between two calls that may block, and no other fiber runs
    during it. The model keeps who owns which packet and leaves packet contents out, so a branch on contents is a
    choice of the environment. `ok` becomes false when an ff_assert of the code would fail or when a queue put, or
    the acquisition of a request stream, would have to wait although the code relies on it not to. */
module ServerProtocol {
  import opened Wrappers

  const MAX_STREAMS: nat := 0x100
  const MAX_PACKETS: nat := 2 * MAX_STREAMS

  /** A packet, by identity. */
  type PacketId = p: nat | p < MAX_PACKETS

  datatype Phase = Working | StopInitiated | Stopped

  /** A request stream in its slot. While `awaits` is set its handler has handed its write packet over and waits
      for the pool: the code's field still names that packet, which is no longer the stream's. */
  datatype RequestStream = RequestStream(
    id: nat, readerQueue: seq<PacketId>, currentRead: Option<PacketId>, currentWrite: Option<PacketId>,
    flushed: bool, awaits: bool)

  /** Where the reader fiber is. */
  datatype Reader =
    | Acquiring                  // waits for a packet
    | Reading(hand: PacketId)    // waits for a frame, with a packet in hand
    | Disconnecting(next: nat)   // disconnects the streams in slots next, next + 1, ...
    | AwaitingPacket(slot: nat)  // found slot occupied, waits for a packet to disconnect it with
    | AwaitingStreams            // waits for the last request stream
    | AwaitingWriter             // has put the NULL sentinel, waits for the writer
    | ReaderDone

  /** Where the writer fiber is. */
  datatype Writer =
    | Getting                    // waits on the writer queue
    | Writing(hand: PacketId)    // writes a packet to the stream
    | Flushing                   // flushes the stream
    | Draining                   // drops packets until the sentinel, after a failure
    | WriterDone

  datatype State = State(
    phase: Phase,
    pool: set<PacketId>,
    queue: seq<Option<PacketId>>,         // the writer queue; None is the NULL sentinel
    slots: seq<Option<RequestStream>>,    // active_request_streams
    count: int,                           // active_request_streams_cnt
    freeStreams: int,                     // entries left in the pool of request streams
    streamsEvent: bool,
    writerEvent: bool,
    reader: Reader,
    writer: Writer,
    orphans: seq<PacketId>,               // packets put into the reader queue of a released stream
    late: bool,                           // history: a stream was released while the reader waited to disconnect it
    puts: seq<Option<PacketId>>,          // history: everything ever put into the writer queue
    written: nat,                         // history: how many packets have been written to the stream
    flushedTo: nat,                       // history: how many of them had been written at the last flush
    ok: bool)

  /** A processor that has just been started: every packet is in the pool, its fibers are about to enter their
      loops. */
  function Init(pool: set<PacketId>): State {
    State(Working, pool, [], seq(MAX_STREAMS, _ => None), 0, MAX_STREAMS, true, false,
          Acquiring, Getting, [], false, [], 0, 0, true)
  }

  // ---- pieces of code shared by the steps ----

  function Require(s: State, condition: bool): State { s.(ok := s.ok && condition) }

  function Release(s: State, p: PacketId): State { Require(s, s.phase != Stopped).(pool := s.pool + {p}) }

  function Acquire(s: State, p: PacketId): State { Require(s, s.phase != Stopped).(pool := s.pool - {p}) }

  function StopAsync(s: State): State {
    Require(s, s.phase != Stopped).(phase := if s.phase == Working then StopInitiated else s.phase)
  }

  function PutToWriter(s: State, item: Option<PacketId>): State {
    Require(s, |s.queue| < MAX_PACKETS).(queue := s.queue + [item], puts := s.puts + [item])
  }

  /** Pushes a packet to the reader queue of the stream in slot i. */
  function PutToStream(s: State, i: nat, p: PacketId): State
    requires i < |s.slots| && s.slots[i].Some?
  {
    var r := s.slots[i].value;
    Require(s, |r.readerQueue| < MAX_PACKETS).(slots := s.slots[i := Some(r.(readerQueue := r.readerQueue + [p]))])
  }

  function Opt(p: Option<PacketId>): multiset<PacketId> { if p.None? then multiset{} else multiset{p.value} }

  function OptSet(p: Option<PacketId>): set<PacketId> { if p.None? then {} else {p.value} }

  /** acquire_request_stream, with the packet that asked for it already pushed. */
  function OpenStream(s: State, id: nat, p: PacketId): State
    requires id < |s.slots|
  {
    Require(s, 0 <= s.count < MAX_STREAMS && s.phase != Stopped && s.freeStreams > 0 && s.slots[id] == None)
      .(slots := s.slots[id := Some(RequestStream(id, [p], None, None, false, false))],
        count := s.count + 1, freeStreams := s.freeStreams - 1,
        streamsEvent := if s.count + 1 == 1 then false else s.streamsEvent)
  }

  /** release_request_stream for the stream in slot i: all its packets return to the pool. */
  function CloseStream(s: State, i: nat): State
    requires i < |s.slots| && s.slots[i].Some?
  {
    var r := s.slots[i].value;
    Require(s, s.phase != Stopped && 0 < s.count <= MAX_STREAMS && r.id == i)
      .(pool := s.pool + OptSet(r.currentWrite) + OptSet(r.currentRead) + (set p | p in r.readerQueue),
        slots := s.slots[i := None],
        count := s.count - 1, freeStreams := s.freeStreams + 1,
        streamsEvent := s.streamsEvent || s.count - 1 == 0,
        late := s.late || s.reader == AwaitingPacket(i))
  }

  // ---- the steps ----

  datatype Step =
    | ReaderAcquires(p: PacketId)
    | ReaderReads(opens: bool, id: nat)    // a frame arrived: does its type open a sequence, and its request id
    | ReaderFails
    | ReaderDisconnects(p: PacketId)
    | ReaderResumes(p: PacketId)
    | ReaderSeesStreamsStop
    | ReaderSeesWriterStop
    | WriterTakes
    | WriterWrites(success: bool)
    | WriterFlushes(success: bool)
    | WriterDrains
    | HandlerBeginsWrite(i: nat, p: PacketId)
    | HandlerPuts(i: nat, last: bool)      // hands its write packet over; the last one when it flushes
    | HandlerGets(i: nat, p: PacketId)     // gets the packet it waited for
    | HandlerTakes(i: nat, accepts: bool)  // takes a packet from its reader queue, of an expected type or not
    | HandlerDisconnects(i: nat, p: PacketId)
    | HandlerReturns(i: nat, success: bool)
    | ExternalStop

  predicate IsHandlerStep(step: Step) {
    step.HandlerBeginsWrite? || step.HandlerPuts? || step.HandlerGets? || step.HandlerTakes?
    || step.HandlerDisconnects? || step.HandlerReturns?
  }

  predicate IsWriterStep(step: Step) {
    step.WriterTakes? || step.WriterWrites? || step.WriterFlushes? || step.WriterDrains?
  }

  predicate Handling(s: State, i: nat) { i < |s.slots| && s.slots[i].Some? && !s.slots[i].value.awaits }

  predicate Enabled(s: State, step: Step) {
    match step
    case ReaderAcquires(p) => s.reader == Acquiring && p in s.pool
    case ReaderReads(_, id) => s.reader.Reading? && id < MAX_STREAMS && |s.slots| == MAX_STREAMS
    case ReaderFails => s.reader.Reading?
    case ReaderDisconnects(p) =>
      s.reader.Disconnecting? &&
      (s.reader.next < |s.slots| && s.slots[s.reader.next].Some? && s.pool != {} ==> p in s.pool)
    case ReaderResumes(p) => s.reader.AwaitingPacket? && s.reader.slot < |s.slots| && p in s.pool
    case ReaderSeesStreamsStop => s.reader == AwaitingStreams && s.streamsEvent
    case ReaderSeesWriterStop => s.reader == AwaitingWriter && s.writerEvent
    case WriterTakes => s.writer == Getting && s.queue != []
    case WriterWrites(_) => s.writer.Writing?
    case WriterFlushes(_) => s.writer == Flushing
    case WriterDrains => s.writer == Draining && s.queue != []
    case HandlerBeginsWrite(i, p) => Handling(s, i) && s.slots[i].value.currentWrite == None && p in s.pool
    case HandlerPuts(i, _) => Handling(s, i) && s.slots[i].value.currentWrite.Some? && !s.slots[i].value.flushed
    case HandlerGets(i, p) => i < |s.slots| && s.slots[i].Some? && s.slots[i].value.awaits && p in s.pool
    case HandlerTakes(i, _) => Handling(s, i) && s.slots[i].value.readerQueue != []
    case HandlerDisconnects(i, p) => Handling(s, i) && p in s.pool
    case HandlerReturns(i, _) => Handling(s, i)
    case ExternalStop => s.phase != Stopped
  }

  /** What the reader does with a frame. A frame whose type does not fit its slot ends the loop. */
  function Dispatch(s: State, p: PacketId, opens: bool, id: nat): State
    requires id < |s.slots|
  {
    if opens && s.slots[id].None? then OpenStream(s, id, p).(reader := Acquiring)
    else if !opens && s.slots[id].Some? then PutToStream(s, id, p).(reader := Acquiring)
    else LeaveLoop(s, p)
  }

  function LeaveLoop(s: State, p: PacketId): State {
    var s' := StopAsync(Release(s, p));
    Require(s', s'.phase == StopInitiated).(reader := Disconnecting(0))
  }

  /** One round of the loop of stop_all_request_streams. */
  function DisconnectNext(s: State, i: nat, p: PacketId): State {
    if i >= |s.slots| then s.(reader := AwaitingStreams)
    else if s.slots[i].None? then s.(reader := Disconnecting(i + 1))
    else if s.pool == {} then s.(reader := AwaitingPacket(i))
    else PutToStream(Acquire(s, p), i, p).(reader := Disconnecting(i + 1))
  }

  /** The packet the reader waited for goes to the stream it found before it waited, released or not. */
  function ResumeDisconnect(s: State, i: nat, p: PacketId): State
    requires i < |s.slots|
  {
    var s' := Acquire(s, p).(reader := Disconnecting(i + 1));
    if s.slots[i].Some? then PutToStream(s', i, p) else s'.(orphans := s.orphans + [p])
  }

  function WriterFinishes(s: State): State {
    Require(s, s.phase == StopInitiated && s.queue == []).(writerEvent := true, writer := WriterDone)
  }

  function WriterGivesUp(s: State): State {
    var s' := StopAsync(s);
    Require(s', s'.phase == StopInitiated).(writer := Draining)
  }

  function Written(s: State, p: PacketId, success: bool): State {
    var s' := Release(s, p);
    if !success then WriterGivesUp(s')
    else s'.(written := s.written + 1, writer := if s.queue == [] then Flushing else Getting)
  }

  function FlushEnds(s: State, success: bool): State {
    if success then s.(flushedTo := s.written, writer := Getting) else WriterGivesUp(s)
  }

  /** The writer takes the next item: a packet to write, or the sentinel. */
  function TakeNext(s: State): State
    requires s.queue != []
  {
    var s' := s.(queue := s.queue[1..]);
    if s.queue[0].None? then WriterFinishes(s') else s'.(writer := Writing(s.queue[0].value))
  }

  /** After a failure the writer gives the packets it takes back to the pool, up to the sentinel. */
  function DropNext(s: State): State
    requires s.queue != []
  {
    var s' := s.(queue := s.queue[1..]);
    if s.queue[0].None? then WriterFinishes(s') else Release(s', s.queue[0].value)
  }

  function HandlerTook(s: State, i: nat, accepts: bool): State
    requires i < |s.slots| && s.slots[i].Some? && s.slots[i].value.readerQueue != []
  {
    var r := s.slots[i].value;
    var p, rest := r.readerQueue[0], r.readerQueue[1..];
    var released := if accepts then OptSet(r.currentRead) else {p};
    Require(s, s.phase != Stopped)
      .(pool := s.pool + released,
        slots := s.slots[i := Some(r.(readerQueue := rest, currentRead := if accepts then Some(p) else r.currentRead))])
  }

  function SetStream(s: State, i: nat, r: RequestStream): State
    requires i < |s.slots|
  {
    s.(slots := s.slots[i := Some(r)])
  }

  function Apply(s: State, step: Step): State
    requires Enabled(s, step)
  {
    match step
    case ReaderAcquires(p) => Acquire(s, p).(reader := Reading(p))
    case ReaderReads(opens, id) => Dispatch(s, s.reader.hand, opens, id)
    case ReaderFails => LeaveLoop(s, s.reader.hand)
    case ReaderDisconnects(p) => DisconnectNext(s, s.reader.next, p)
    case ReaderResumes(p) => ResumeDisconnect(s, s.reader.slot, p)
    case ReaderSeesStreamsStop =>
      PutToWriter(Require(s, s.count == 0 && s.phase == StopInitiated), None)
        .(streamsEvent := false, reader := AwaitingWriter)
    case ReaderSeesWriterStop => s.(writerEvent := false, phase := Stopped, reader := ReaderDone)
    case WriterTakes => TakeNext(s)
    case WriterWrites(success) => Written(s, s.writer.hand, success)
    case WriterFlushes(success) => FlushEnds(s, success)
    case WriterDrains => DropNext(s)
    case HandlerBeginsWrite(i, p) =>
      SetStream(Acquire(s, p), i, s.slots[i].value.(currentWrite := Some(p)))
    case HandlerPuts(i, last) =>
      var r := s.slots[i].value;
      SetStream(PutToWriter(s, r.currentWrite), i, r.(currentWrite := None, flushed := last, awaits := true))
    case HandlerGets(i, p) =>
      SetStream(Acquire(s, p), i, s.slots[i].value.(currentWrite := Some(p), awaits := false))
    case HandlerTakes(i, accepts) => HandlerTook(s, i, accepts)
    case HandlerDisconnects(i, p) => PutToStream(Acquire(s, p), i, p)
    case HandlerReturns(i, success) => CloseStream(if success then s else StopAsync(s), i)
    case ExternalStop => StopAsync(s)
  }

  function Run(s: State, steps: seq<Step>): Option<State>
    decreases |steps|
  {
    if steps == [] then Some(s)
    else if Enabled(s, steps[0]) then Run(Apply(s, steps[0]), steps[1..])
    else None
  }

  // ---- who owns the packets ----

  function InQueue(q: seq<Option<PacketId>>): multiset<PacketId> {
    if q == [] then multiset{} else Opt(q[0]) + InQueue(q[1..])
  }

  function One(b: bool): nat { if b then 1 else 0 }

  function InStream(r: RequestStream, p: PacketId): nat {
    multiset(r.readerQueue)[p] + One(r.currentRead == Some(p)) + One(r.currentWrite == Some(p))
  }

  function InSlot(x: Option<RequestStream>, p: PacketId): nat {
    if x.None? then 0 else InStream(x.value, p)
  }

  function InSlots(slots: seq<Option<RequestStream>>, p: PacketId): nat {
    if slots == [] then 0 else InSlot(slots[0], p) + InSlots(slots[1..], p)
  }

  function InHands(s: State, p: PacketId): nat {
    One(s.reader == Reading(p)) + One(s.writer == Writing(p))
  }

  /** In how many places packet p is: the pool, the writer queue, the reader queue and the current packets of each
      stream, the hands of the two fibers, and the orphans. */
  function Places(s: State, p: PacketId): nat {
    One(p in s.pool) + InQueue(s.queue)[p] + InSlots(s.slots, p) + InHands(s, p) + multiset(s.orphans)[p]
  }

  function Occupied(s: State): set<nat> {
    set i | 0 <= i < |s.slots| && s.slots[i].Some?
  }

  // ---- the invariant ----

  /** Every packet has exactly one owner. */
  ghost predicate Conserved(s: State) {
    forall p: PacketId :: Places(s, p) == 1
  }

  ghost predicate SlotsInv(s: State) {
    && |s.slots| == MAX_STREAMS
    && s.count == |Occupied(s)| && s.freeStreams == MAX_STREAMS - s.count
    && (forall i :: 0 <= i < MAX_STREAMS && s.slots[i].Some? ==>
          s.slots[i].value.id == i && (s.slots[i].value.awaits ==> s.slots[i].value.currentWrite == None))
  }

  predicate SentinelSent(s: State) { s.reader == AwaitingWriter || s.reader == ReaderDone }

  /** The stop event is set exactly when no stream is active, until the stopper consumes it. */
  ghost predicate EventInv(s: State) {
    s.streamsEvent <==> s.count == 0 && !SentinelSent(s)
  }

  ghost predicate PhaseInv(s: State) {
    && (s.phase == Stopped <==> s.reader == ReaderDone)
    && (s.phase == Working ==> s.reader == Acquiring || s.reader.Reading?)
    && (SentinelSent(s) ==> s.count == 0)
    && (s.writer == Draining ==> s.phase != Working)
    && (s.writer == WriterDone ==> SentinelSent(s) && s.queue == [])
    && (s.reader == AwaitingWriter ==> (s.writerEvent <==> s.writer == WriterDone))
    && (s.reader == ReaderDone ==> s.writer == WriterDone)
    && (s.writerEvent ==> s.reader == AwaitingWriter)
    && (s.reader.AwaitingPacket? ==> s.reader.slot < MAX_STREAMS)
  }

  /** The NULL sentinel is in the writer queue exactly from when the reader puts it until the writer takes it,
      and it is the last item ever put there. */
  ghost predicate SentinelInv(s: State) {
    && (forall k :: 0 <= k < |s.queue| && s.queue[k] == None ==> k == |s.queue| - 1)
    && (s.queue != [] && s.queue[|s.queue| - 1] == None ==> SentinelSent(s))
    && (SentinelSent(s) && s.writer != WriterDone ==> s.queue != [] && s.queue[|s.queue| - 1] == None)
    && (forall k :: 0 <= k < |s.puts| && s.puts[k] == None ==> k == |s.puts| - 1)
    && (s.puts != [] && s.puts[|s.puts| - 1] == None <==> SentinelSent(s))
  }

  /** A completely full writer queue means that some handler is between handing a packet over and getting the
      next one. */
  ghost predicate RoomInv(s: State) {
    |InQueue(s.queue)| == MAX_PACKETS ==> exists i :: Awaits(s, i)
  }

  predicate Awaits(s: State, i: int) { 0 <= i < |s.slots| && s.slots[i].Some? && s.slots[i].value.awaits }

  ghost predicate FlushInv(s: State) {
    s.writer == Getting && s.queue == [] ==> s.flushedTo == s.written
  }

  /** A packet is orphaned exactly when a stream was released while the reader waited to disconnect it. */
  ghost predicate LateInv(s: State) {
    && (s.orphans != [] ==> s.late)
    && (s.late ==> s.orphans != [] || AwaitsReleased(s))
    && (AwaitsReleased(s) ==> s.late)
  }

  predicate AwaitsReleased(s: State) {
    s.reader.AwaitingPacket? && s.reader.slot < |s.slots| && s.slots[s.reader.slot] == None
  }

  ghost predicate Control(s: State) {
    SlotsInv(s) && EventInv(s) && PhaseInv(s) && SentinelInv(s) && FlushInv(s) && LateInv(s) && s.ok
  }

  ghost predicate Inv(s: State) {
    Conserved(s) && RoomInv(s) && Control(s)
  }

  // ---- counting packets ----

  lemma {:induction false} InSlotsUpdate(slots: seq<Option<RequestStream>>, i: nat, x: Option<RequestStream>,
    p: PacketId)
    requires i < |slots|
    ensures InSlots(slots[i := x], p) + InSlot(slots[i], p) == InSlots(slots, p) + InSlot(x, p)
    ensures InSlots(slots, p) >= InSlot(slots[i], p)
  {
    var slots' := slots[i := x];
    if i == 0 {
      assert slots'[1..] == slots[1..];
    } else {
      assert slots'[1..] == slots[1..][i - 1 := x];
      InSlotsUpdate(slots[1..], i - 1, x, p);
    }
  }

  lemma {:induction false} InQueueAppend(q: seq<Option<PacketId>>, x: Option<PacketId>)
    ensures InQueue(q + [x]) == InQueue(q) + Opt(x)
  {
    if q == [] {
      assert ([] + [x])[1..] == [];
    } else {
      assert (q + [x])[1..] == q[1..] + [x];
      InQueueAppend(q[1..], x);
    }
  }

  lemma {:induction false} InSlotsEmpty(slots: seq<Option<RequestStream>>, p: PacketId)
    requires forall i :: 0 <= i < |slots| ==> slots[i] == None
    ensures InSlots(slots, p) == 0
  {
    if slots != [] {
      InSlotsEmpty(slots[1..], p);
    }
  }

  /** Pigeonhole: a bag of packets below n without repetition has at most n elements. */
  lemma {:induction false} Pigeonhole(m: multiset<PacketId>, n: nat)
    requires n <= MAX_PACKETS && forall p: PacketId :: m[p] <= One(p < n)
    ensures |m| <= n
  {
    if n == 0 {
      assert m == multiset{};
    } else {
      var last: PacketId := n - 1;
      var m' := m - multiset{last};
      Pigeonhole(m', n - 1);
      assert m == if m[last] == 1 then m' + multiset{last} else m';
    }
  }

  /** As long as no sentinel is in it, the writer queue is as long as it holds packets. */
  lemma {:induction false} QueueLength(q: seq<Option<PacketId>>)
    requires forall k :: 0 <= k < |q| ==> q[k].Some?
    ensures |InQueue(q)| == |q|
  {
    if q != [] {
      QueueLength(q[1..]);
    }
  }

  lemma InitConserved(pool: set<PacketId>)
    requires forall p: PacketId :: p in pool
    ensures Conserved(Init(pool))
  {
    forall p: PacketId ensures Places(Init(pool), p) == 1 { InSlotsEmpty(Init(pool).slots, p); }
  }

  // ---- every step keeps every packet owned exactly once ----

  lemma PushPlaces(s: State, i: nat, p: PacketId, q: PacketId)
    requires i < |s.slots| && s.slots[i].Some?
    ensures Places(PutToStream(s, i, p), q) == Places(s, q) + One(p == q)
  {
    InSlotsUpdate(s.slots, i, PutToStream(s, i, p).slots[i], q);
  }

  lemma SetPlaces(s: State, i: nat, r: RequestStream, q: PacketId)
    requires i < |s.slots| && s.slots[i].Some?
    ensures Places(SetStream(s, i, r), q) + InStream(s.slots[i].value, q) == Places(s, q) + InStream(r, q)
  {
    InSlotsUpdate(s.slots, i, Some(r), q);
  }

  lemma AcquirePlaces(s: State, p: PacketId, q: PacketId)
    requires p in s.pool
    ensures Places(Acquire(s, p), q) + One(p == q) == Places(s, q)
  {
  }

  lemma ReleasePlaces(s: State, p: PacketId, q: PacketId)
    requires p !in s.pool
    ensures Places(Release(s, p), q) == Places(s, q) + One(p == q)
  {
  }

  lemma OpenPlaces(s: State, id: nat, p: PacketId, q: PacketId)
    requires id < |s.slots| && s.slots[id] == None
    ensures Places(OpenStream(s, id, p), q) == Places(s, q) + One(p == q)
  {
    InSlotsUpdate(s.slots, id, OpenStream(s, id, p).slots[id], q);
  }

  lemma ClosePlaces(s: State, i: nat, q: PacketId)
    requires i < |s.slots| && s.slots[i].Some? && Places(s, q) == 1
    ensures Places(CloseStream(s, i), q) == 1
  {
    InSlotsUpdate(s.slots, i, None, q);
    var r := s.slots[i].value;
    assert q in r.readerQueue <==> multiset(r.readerQueue)[q] > 0;
    assert InStream(r, q) <= 1;
    assert q in CloseStream(s, i).pool <==> q in s.pool || InStream(r, q) == 1;
  }

  lemma TookPlaces(s: State, i: nat, accepts: bool, q: PacketId)
    requires i < |s.slots| && s.slots[i].Some? && s.slots[i].value.readerQueue != [] && Places(s, q) == 1
    ensures Places(HandlerTook(s, i, accepts), q) == 1
  {
    var r, r' := s.slots[i].value, HandlerTook(s, i, accepts).slots[i].value;
    assert r.readerQueue == [r.readerQueue[0]] + r.readerQueue[1..];
    assert multiset(r.readerQueue)[q] == One(r.readerQueue[0] == q) + multiset(r.readerQueue[1..])[q];
    InSlotsUpdate(s.slots, i, Some(r'), q);
  }

  lemma PutPlaces(s: State, x: Option<PacketId>, q: PacketId)
    ensures Places(PutToWriter(s, x), q) == Places(s, q) + One(x == Some(q))
  {
    InQueueAppend(s.queue, x);
  }

  lemma LeavePlaces(s: State, q: PacketId)
    requires s.reader.Reading? && Places(s, q) == 1 && s.reader.hand !in s.pool
    ensures Places(LeaveLoop(s, s.reader.hand), q) == 1
  {
    ReleasePlaces(s, s.reader.hand, q);
  }

  lemma DispatchPlaces(s: State, opens: bool, id: nat, q: PacketId)
    requires s.reader.Reading? && id < |s.slots| && Places(s, q) == 1 && s.reader.hand !in s.pool
    ensures Places(Dispatch(s, s.reader.hand, opens, id), q) == 1
  {
    var p := s.reader.hand;
    if opens && s.slots[id].None? {
      OpenPlaces(s, id, p, q);
    } else if !opens && s.slots[id].Some? {
      PushPlaces(s, id, p, q);
    } else {
      LeavePlaces(s, q);
    }
  }

  lemma QuietPlaces(s: State, s': State, q: PacketId)
    requires Places(s, q) == 1
    requires s'.pool == s.pool && s'.queue == s.queue && s'.slots == s.slots && s'.orphans == s.orphans
    requires forall p: PacketId :: s'.reader == Reading(p) <==> s.reader == Reading(p)
    requires forall p: PacketId :: s'.writer == Writing(p) <==> s.writer == Writing(p)
    ensures Places(s', q) == 1
  {
  }

  /** A packet moved from the pool to a reader queue. */
  lemma MovePlaces(s: State, i: nat, p: PacketId, q: PacketId)
    requires i < |s.slots| && s.slots[i].Some? && p in s.pool && Places(s, q) == 1
    ensures Places(PutToStream(Acquire(s, p), i, p), q) == 1
  {
    AcquirePlaces(s, p, q);
    PushPlaces(Acquire(s, p), i, p, q);
  }

  lemma DisconnectPlaces(s: State, p: PacketId, q: PacketId)
    requires s.reader.Disconnecting? && Places(s, q) == 1
    requires s.reader.next < |s.slots| && s.slots[s.reader.next].Some? && s.pool != {} ==> p in s.pool
    ensures Places(DisconnectNext(s, s.reader.next, p), q) == 1
  {
    var i := s.reader.next;
    if i < |s.slots| && s.slots[i].Some? && s.pool != {} {
      MovePlaces(s, i, p, q);
      QuietPlaces(PutToStream(Acquire(s, p), i, p), DisconnectNext(s, i, p), q);
    } else {
      QuietPlaces(s, DisconnectNext(s, i, p), q);
    }
  }

  lemma ResumePlaces(s: State, p: PacketId, q: PacketId)
    requires s.reader.AwaitingPacket? && s.reader.slot < |s.slots| && p in s.pool && Places(s, q) == 1
    ensures Places(ResumeDisconnect(s, s.reader.slot, p), q) == 1
  {
    var i := s.reader.slot;
    if s.slots[i].Some? {
      MovePlaces(s, i, p, q);
      QuietPlaces(PutToStream(Acquire(s, p), i, p), ResumeDisconnect(s, i, p), q);
    } else {
      AcquirePlaces(s, p, q);
    }
  }

  lemma ReaderAcquiresPlaces(s: State, p: PacketId, q: PacketId)
    requires s.reader == Acquiring && p in s.pool && Places(s, q) == 1
    ensures Places(Acquire(s, p).(reader := Reading(p)), q) == 1
  {
    AcquirePlaces(s, p, q);
  }

  lemma HeadPlaces(queue: seq<Option<PacketId>>, q: PacketId)
    requires queue != []
    ensures InQueue(queue)[q] == One(queue[0] == Some(q)) + InQueue(queue[1..])[q]
  {
  }

  lemma TakesPlaces(s: State, q: PacketId)
    requires s.writer == Getting && s.queue != [] && Places(s, q) == 1
    ensures Places(TakeNext(s), q) == 1
  {
    HeadPlaces(s.queue, q);
  }

  lemma DrainsPlaces(s: State, q: PacketId)
    requires s.writer == Draining && s.queue != [] && Places(s, q) == 1
    requires s.queue[0].Some? ==> s.queue[0].value !in s.pool
    ensures Places(DropNext(s), q) == 1
  {
    HeadPlaces(s.queue, q);
  }

  lemma WrittenPlaces(s: State, success: bool, q: PacketId)
    requires s.writer.Writing? && Places(s, q) == 1 && s.writer.hand !in s.pool
    ensures Places(Written(s, s.writer.hand, success), q) == 1
  {
    ReleasePlaces(s, s.writer.hand, q);
  }

  lemma SentinelPlaces(s: State, q: PacketId)
    requires Enabled(s, ReaderSeesStreamsStop) && Places(s, q) == 1
    ensures Places(Apply(s, ReaderSeesStreamsStop), q) == 1
  {
    PutPlaces(s, None, q);
  }

  lemma BeginsPlaces(s: State, i: nat, p: PacketId, q: PacketId)
    requires Enabled(s, HandlerBeginsWrite(i, p)) && Places(s, q) == 1
    ensures Places(Apply(s, HandlerBeginsWrite(i, p)), q) == 1
  {
    AcquirePlaces(s, p, q);
    SetPlaces(Acquire(s, p), i, s.slots[i].value.(currentWrite := Some(p)), q);
  }

  lemma PutsPlaces(s: State, i: nat, last: bool, q: PacketId)
    requires Enabled(s, HandlerPuts(i, last)) && Places(s, q) == 1
    ensures Places(Apply(s, HandlerPuts(i, last)), q) == 1
  {
    var r := s.slots[i].value;
    PutPlaces(s, r.currentWrite, q);
    SetPlaces(PutToWriter(s, r.currentWrite), i, r.(currentWrite := None, flushed := last, awaits := true), q);
  }

  lemma GetsPlaces(s: State, i: nat, p: PacketId, q: PacketId)
    requires SlotsInv(s) && Enabled(s, HandlerGets(i, p)) && Places(s, q) == 1
    ensures Places(Apply(s, HandlerGets(i, p)), q) == 1
  {
    AcquirePlaces(s, p, q);
    SetPlaces(Acquire(s, p), i, s.slots[i].value.(currentWrite := Some(p), awaits := false), q);
  }

  lemma ReturnsPlaces(s: State, i: nat, success: bool, q: PacketId)
    requires Handling(s, i) && Places(s, q) == 1
    ensures Places(CloseStream(if success then s else StopAsync(s), i), q) == 1
  {
    assert Places(StopAsync(s), q) == 1;
    ClosePlaces(if success then s else StopAsync(s), i, q);
  }

  lemma HandsNotInPool(s: State)
    requires Conserved(s)
    ensures s.reader.Reading? ==> s.reader.hand !in s.pool
    ensures s.writer.Writing? ==> s.writer.hand !in s.pool
    ensures s.queue != [] && s.queue[0].Some? ==> s.queue[0].value !in s.pool
  {
    if s.reader.Reading? { assert Places(s, s.reader.hand) == 1; }
    if s.writer.Writing? { assert Places(s, s.writer.hand) == 1; }
    if s.queue != [] && s.queue[0].Some? { assert Places(s, s.queue[0].value) == 1; }
  }

  lemma StepPlaces(s: State, step: Step, q: PacketId)
    requires Conserved(s) && SlotsInv(s) && Enabled(s, step) && Places(s, q) == 1
    ensures Places(Apply(s, step), q) == 1
  {
    HandsNotInPool(s);
    match step
    case ReaderAcquires(p) => ReaderAcquiresPlaces(s, p, q);
    case ReaderReads(opens, id) => DispatchPlaces(s, opens, id, q);
    case ReaderFails => LeavePlaces(s, q);
    case ReaderDisconnects(p) => DisconnectPlaces(s, p, q);
    case ReaderResumes(p) => ResumePlaces(s, p, q);
    case ReaderSeesStreamsStop => SentinelPlaces(s, q);
    case ReaderSeesWriterStop => QuietPlaces(s, Apply(s, ReaderSeesWriterStop), q);
    case WriterTakes => TakesPlaces(s, q);
    case WriterWrites(success) => WrittenPlaces(s, success, q);
    case WriterFlushes(success) => QuietPlaces(s, FlushEnds(s, success), q);
    case WriterDrains => DrainsPlaces(s, q);
    case ExternalStop => QuietPlaces(s, StopAsync(s), q);
    case HandlerBeginsWrite(i, p) => BeginsPlaces(s, i, p, q);
    case HandlerPuts(i, last) => PutsPlaces(s, i, last, q);
    case HandlerGets(i, p) => GetsPlaces(s, i, p, q);
    case HandlerTakes(i, accepts) => TookPlaces(s, i, accepts, q);
    case HandlerDisconnects(i, p) => MovePlaces(s, i, p, q);
    case HandlerReturns(i, success) => ReturnsPlaces(s, i, success, q);
  }

  lemma StepConserves(s: State, step: Step)
    requires Conserved(s) && SlotsInv(s) && Enabled(s, step)
    ensures Conserved(Apply(s, step))
  {
    forall q: PacketId
      ensures Places(Apply(s, step), q) == 1
    {
      assert Places(s, q) == 1;
      StepPlaces(s, step, q);
    }
  }

  // ---- every step keeps the slots and the two events in order ----

  lemma {:induction false} OccupiedSize(slots: seq<Option<RequestStream>>, n: nat)
    requires n <= |slots|
    ensures var occupied := set i | 0 <= i < n && slots[i].Some?;
            |occupied| <= n && ((exists i :: 0 <= i < n && slots[i].None?) ==> |occupied| < n)
  {
    var occupied := set i | 0 <= i < n && slots[i].Some?;
    if n > 0 {
      OccupiedSize(slots, n - 1);
      var fewer := set i | 0 <= i < n - 1 && slots[i].Some?;
      assert occupied == if slots[n - 1].Some? then fewer + {n - 1} else fewer;
    }
  }

  lemma SlotFree(s: State, id: nat)
    requires SlotsInv(s) && id < MAX_STREAMS && s.slots[id].None?
    ensures s.count < MAX_STREAMS && s.freeStreams > 0
  {
    OccupiedSize(s.slots, MAX_STREAMS);
    assert Occupied(s) == set i | 0 <= i < MAX_STREAMS && s.slots[i].Some?;
  }

  lemma SlotTaken(s: State, i: nat)
    requires SlotsInv(s) && i < MAX_STREAMS && s.slots[i].Some?
    ensures 0 < s.count <= MAX_STREAMS && s.slots[i].value.id == i
  {
    OccupiedSize(s.slots, MAX_STREAMS);
    assert Occupied(s) == set i | 0 <= i < MAX_STREAMS && s.slots[i].Some?;
    assert i in Occupied(s);
  }

  lemma OpenSlots(s: State, id: nat, p: PacketId)
    requires SlotsInv(s) && EventInv(s) && id < MAX_STREAMS && s.slots[id].None? && !SentinelSent(s)
    ensures SlotsInv(OpenStream(s, id, p)) && EventInv(OpenStream(s, id, p))
  {
    assert Occupied(OpenStream(s, id, p)) == Occupied(s) + {id};
  }

  lemma CloseSlots(s: State, i: nat)
    requires SlotsInv(s) && EventInv(s) && i < MAX_STREAMS && s.slots[i].Some? && !SentinelSent(s)
    ensures SlotsInv(CloseStream(s, i)) && EventInv(CloseStream(s, i))
  {
    SlotTaken(s, i);
    assert Occupied(CloseStream(s, i)) == Occupied(s) - {i};
  }

  lemma SameSlots(s: State, s': State, i: nat)
    requires SlotsInv(s) && i < MAX_STREAMS && s.slots[i].Some? && |s'.slots| == MAX_STREAMS
    requires s'.slots == s.slots[i := s'.slots[i]] && s'.count == s.count && s'.freeStreams == s.freeStreams
    requires s'.slots[i].Some? && s'.slots[i].value.id == i
    requires s'.slots[i].value.awaits ==> s'.slots[i].value.currentWrite == None
    ensures SlotsInv(s')
  {
    assert Occupied(s') == Occupied(s);
  }

  /** While a handler runs, the stop has not got as far as the sentinel. */
  lemma HandlerIsEarly(s: State, i: nat)
    requires SlotsInv(s) && PhaseInv(s) && i < MAX_STREAMS && s.slots[i].Some?
    ensures !SentinelSent(s) && s.phase != Stopped && s.writer != WriterDone
  {
    SlotTaken(s, i);
  }

  // ---- no queue overflows ----

  /** A stream's reader queue has room for a packet that is somewhere else. */
  lemma StreamHasRoom(s: State, i: nat, p: PacketId)
    requires Conserved(s) && i < |s.slots| && s.slots[i].Some?
    requires p in s.pool || s.reader == Reading(p)
    ensures |s.slots[i].value.readerQueue| < MAX_PACKETS
  {
    var m := multiset(s.slots[i].value.readerQueue) + multiset{p};
    forall q: PacketId
      ensures m[q] <= One(q < MAX_PACKETS)
    {
      InSlotsUpdate(s.slots, i, None, q);
      assert Places(s, q) == 1;
    }
    Pigeonhole(m, MAX_PACKETS);
  }

  /** The writer queue has room for a packet that is not in it. */
  lemma WriterHasRoom(s: State, p: PacketId)
    requires SentinelInv(s) && !SentinelSent(s)
    requires InQueue(s.queue)[p] == 0 && forall q: PacketId :: InQueue(s.queue)[q] <= 1
    ensures |s.queue| < MAX_PACKETS
  {
    Pigeonhole(InQueue(s.queue) + multiset{p}, MAX_PACKETS);
    QueueLength(s.queue);
  }

  /** The writer queue has room for the sentinel when no handler waits for the pool. */
  lemma SentinelHasRoom(s: State)
    requires RoomInv(s) && SentinelInv(s) && !SentinelSent(s)
    requires forall q: PacketId :: InQueue(s.queue)[q] <= 1
    requires forall i :: !Awaits(s, i)
    ensures |s.queue| < MAX_PACKETS
  {
    Pigeonhole(InQueue(s.queue), MAX_PACKETS);
    QueueLength(s.queue);
  }

  lemma RoomKept(s: State, s': State)
    requires RoomInv(s) && InQueue(s'.queue) <= InQueue(s.queue)
    requires forall i :: Awaits(s, i) ==> Awaits(s', i)
    requires forall p: PacketId :: InQueue(s.queue)[p] <= 1
    ensures RoomInv(s')
  {
    Pigeonhole(InQueue(s.queue), MAX_PACKETS);
    assert InQueue(s.queue) == InQueue(s'.queue) + (InQueue(s.queue) - InQueue(s'.queue));
  }

  lemma QueuedOnce(s: State)
    requires Conserved(s)
    ensures forall p: PacketId :: InQueue(s.queue)[p] <= 1
  {
    forall p: PacketId ensures InQueue(s.queue)[p] <= 1 { assert Places(s, p) == 1; }
  }

  lemma PoolMeansRoom(s: State, p: PacketId)
    requires Conserved(s) && p in s.pool
    ensures |InQueue(s.queue)| < MAX_PACKETS
  {
    var m := InQueue(s.queue) + multiset{p};
    forall q: PacketId ensures m[q] <= One(q < MAX_PACKETS) { assert Places(s, q) == 1; }
    Pigeonhole(m, MAX_PACKETS);
  }

  lemma SameRoom(s: State, s': State)
    requires RoomInv(s) && s'.slots == s.slots && s'.queue == s.queue
    ensures RoomInv(s')
  {
    if i :| Awaits(s, i) { assert Awaits(s', i); }
  }

  lemma DispatchRoom(s: State, opens: bool, id: nat)
    requires Inv(s) && s.reader.Reading? && id < MAX_STREAMS
    ensures RoomInv(Dispatch(s, s.reader.hand, opens, id))
  {
    var p := s.reader.hand;
    if opens && s.slots[id].None? {
      OpenRoom(s, id, p);
      SameRoom(OpenStream(s, id, p), Dispatch(s, p, opens, id));
    } else if !opens && s.slots[id].Some? {
      PushRoom(s, id, p);
      SameRoom(PutToStream(s, id, p), Dispatch(s, p, opens, id));
    } else {
      SameRoom(s, Dispatch(s, p, opens, id));
    }
  }

  lemma OpenRoom(s: State, id: nat, p: PacketId)
    requires RoomInv(s) && Conserved(s) && id < |s.slots| && s.slots[id].None?
    ensures RoomInv(OpenStream(s, id, p))
  {
    QueuedOnce(s);
    RoomKept(s, OpenStream(s, id, p));
  }

  lemma PushRoom(s: State, i: nat, p: PacketId)
    requires RoomInv(s) && Conserved(s) && i < |s.slots| && s.slots[i].Some?
    ensures RoomInv(PutToStream(s, i, p))
  {
    QueuedOnce(s);
    RoomKept(s, PutToStream(s, i, p));
  }

  lemma DisconnectRoom(s: State, p: PacketId)
    requires RoomInv(s) && Conserved(s) && s.reader.Disconnecting?
    ensures RoomInv(DisconnectNext(s, s.reader.next, p))
  {
    var i := s.reader.next;
    if i < |s.slots| && s.slots[i].Some? && s.pool != {} {
      PushRoom(s, i, p);
      SameRoom(PutToStream(s, i, p), DisconnectNext(s, i, p));
    } else {
      SameRoom(s, DisconnectNext(s, i, p));
    }
  }

  lemma ResumeRoom(s: State, p: PacketId)
    requires RoomInv(s) && Conserved(s) && s.reader.AwaitingPacket? && s.reader.slot < |s.slots|
    ensures RoomInv(ResumeDisconnect(s, s.reader.slot, p))
  {
    var i := s.reader.slot;
    if s.slots[i].Some? {
      PushRoom(s, i, p);
      SameRoom(PutToStream(s, i, p), ResumeDisconnect(s, i, p));
    } else {
      SameRoom(s, ResumeDisconnect(s, i, p));
    }
  }

  lemma TakeRoom(s: State, s': State)
    requires RoomInv(s) && Conserved(s) && s.queue != [] && s'.queue == s.queue[1..] && s'.slots == s.slots
    ensures RoomInv(s')
  {
    QueuedOnce(s);
    RoomKept(s, s');
  }

  lemma SetRoom(s: State, i: nat, r: RequestStream, s': State)
    requires RoomInv(s) && i < |s.slots| && s'.queue == s.queue && s'.slots == SetStream(s, i, r).slots
    requires !Awaits(s, i) || r.awaits
    ensures RoomInv(s')
  {
    if k :| Awaits(s, k) { assert Awaits(s', k); }
  }

  lemma CloseRoom(s: State, i: nat)
    requires RoomInv(s) && Handling(s, i)
    ensures RoomInv(CloseStream(s, i))
  {
    if k :| Awaits(s, k) { assert Awaits(CloseStream(s, i), k); }
  }

  lemma SentinelRoom(s: State)
    requires Inv(s) && Enabled(s, ReaderSeesStreamsStop)
    ensures RoomInv(Apply(s, ReaderSeesStreamsStop))
  {
    InQueueAppend(s.queue, None);
    if k :| Awaits(s, k) { SlotTaken(s, k); }
  }

  lemma PutsRoom(s: State, i: nat, last: bool)
    requires Enabled(s, HandlerPuts(i, last))
    ensures RoomInv(Apply(s, HandlerPuts(i, last)))
  {
    assert Awaits(Apply(s, HandlerPuts(i, last)), i);
  }

  lemma GetsRoom(s: State, i: nat, p: PacketId)
    requires Conserved(s) && Enabled(s, HandlerGets(i, p))
    ensures RoomInv(Apply(s, HandlerGets(i, p)))
  {
    PoolMeansRoom(s, p);
  }

  lemma BeginsRoom(s: State, i: nat, p: PacketId)
    requires RoomInv(s) && Enabled(s, HandlerBeginsWrite(i, p))
    ensures RoomInv(Apply(s, HandlerBeginsWrite(i, p)))
  {
    SetRoom(s, i, s.slots[i].value.(currentWrite := Some(p)), Apply(s, HandlerBeginsWrite(i, p)));
  }

  lemma TookRoom(s: State, i: nat, accepts: bool)
    requires RoomInv(s) && Enabled(s, HandlerTakes(i, accepts))
    ensures RoomInv(HandlerTook(s, i, accepts))
  {
    SetRoom(s, i, HandlerTook(s, i, accepts).slots[i].value, HandlerTook(s, i, accepts));
  }

  lemma HandlerDisconnectsRoom(s: State, i: nat, p: PacketId)
    requires RoomInv(s) && Conserved(s) && Enabled(s, HandlerDisconnects(i, p))
    ensures RoomInv(PutToStream(Acquire(s, p), i, p))
  {
    PushRoom(s, i, p);
    SameRoom(PutToStream(s, i, p), PutToStream(Acquire(s, p), i, p));
  }

  lemma ReturnsRoom(s: State, i: nat, success: bool)
    requires RoomInv(s) && Handling(s, i)
    ensures RoomInv(CloseStream(if success then s else StopAsync(s), i))
  {
    SameRoom(s, StopAsync(s));
    CloseRoom(if success then s else StopAsync(s), i);
  }

  lemma StepRoom(s: State, step: Step)
    requires Inv(s) && Enabled(s, step)
    ensures RoomInv(Apply(s, step))
  {
    match step
    case ReaderAcquires(p) => SameRoom(s, Acquire(s, p).(reader := Reading(p)));
    case ReaderReads(opens, id) => DispatchRoom(s, opens, id);
    case ReaderFails => SameRoom(s, LeaveLoop(s, s.reader.hand));
    case ReaderDisconnects(p) => DisconnectRoom(s, p);
    case ReaderResumes(p) => ResumeRoom(s, p);
    case ReaderSeesStreamsStop => SentinelRoom(s);
    case ReaderSeesWriterStop => SameRoom(s, Apply(s, ReaderSeesWriterStop));
    case WriterTakes => TakeRoom(s, TakeNext(s));
    case WriterWrites(success) => SameRoom(s, Written(s, s.writer.hand, success));
    case WriterFlushes(success) => SameRoom(s, FlushEnds(s, success));
    case WriterDrains => TakeRoom(s, DropNext(s));
    case HandlerBeginsWrite(i, p) => BeginsRoom(s, i, p);
    case HandlerPuts(i, last) => PutsRoom(s, i, last);
    case HandlerGets(i, p) => GetsRoom(s, i, p);
    case HandlerTakes(i, accepts) => TookRoom(s, i, accepts);
    case HandlerDisconnects(i, p) => HandlerDisconnectsRoom(s, i, p);
    case HandlerReturns(i, success) => ReturnsRoom(s, i, success);
    case ExternalStop => SameRoom(s, StopAsync(s));
  }

  // ---- every step keeps the rest, and no assertion fails ----

  lemma ReaderAcquiresControl(s: State, p: PacketId)
    requires Inv(s) && s.reader == Acquiring && p in s.pool
    ensures Control(Acquire(s, p).(reader := Reading(p)))
  {
  }

  lemma LeaveLoopControl(s: State, p: PacketId)
    requires Inv(s) && s.reader.Reading?
    ensures Control(LeaveLoop(s, p))
  {
  }

  lemma AcquireControl(s: State, p: PacketId)
    requires Control(s) && s.phase != Stopped
    ensures Control(Acquire(s, p))
  {
  }

  lemma PushControl(s: State, i: nat, p: PacketId)
    requires Control(s) && i < MAX_STREAMS && s.slots[i].Some? && |s.slots[i].value.readerQueue| < MAX_PACKETS
    ensures Control(PutToStream(s, i, p))
  {
    SameSlots(s, PutToStream(s, i, p), i);
  }

  lemma DispatchControl(s: State, p: PacketId, opens: bool, id: nat)
    requires Inv(s) && s.reader == Reading(p) && id < MAX_STREAMS
    ensures Control(Dispatch(s, p, opens, id))
  {
    if opens && s.slots[id].None? {
      SlotFree(s, id);
      OpenSlots(s, id, p);
    } else if !opens && s.slots[id].Some? {
      StreamHasRoom(s, id, p);
      PushControl(s, id, p);
    } else {
      LeaveLoopControl(s, p);
    }
  }

  lemma NextSlotControl(s: State, i: nat)
    requires Control(s) && (s.reader == Disconnecting(i) || (s.reader == AwaitingPacket(i) && s.slots[i].Some?))
    ensures Control(s.(reader := Disconnecting(i + 1)))
  {
  }

  lemma PushNextControl(s: State, i: nat, p: PacketId)
    requires Control(s) && s.reader == Disconnecting(i) && s.phase != Stopped
    requires i < MAX_STREAMS && s.slots[i].Some? && |s.slots[i].value.readerQueue| < MAX_PACKETS
    ensures Control(PutToStream(Acquire(s, p), i, p).(reader := Disconnecting(i + 1)))
  {
    AcquireControl(s, p);
    PushControl(Acquire(s, p), i, p);
    NextSlotControl(PutToStream(Acquire(s, p), i, p), i);
  }

  lemma DisconnectControl(s: State, p: PacketId)
    requires Control(s) && Conserved(s) && s.reader.Disconnecting?
    requires s.reader.next < |s.slots| && s.slots[s.reader.next].Some? && s.pool != {} ==> p in s.pool
    ensures Control(DisconnectNext(s, s.reader.next, p))
  {
    var i := s.reader.next;
    if i < MAX_STREAMS && s.slots[i].Some? && s.pool != {} {
      StreamHasRoom(s, i, p);
      PushNextControl(s, i, p);
    } else {
      SkipControl(s, p);
    }
  }

  lemma SkipControl(s: State, p: PacketId)
    requires Control(s) && s.reader.Disconnecting?
    requires s.reader.next >= MAX_STREAMS || s.slots[s.reader.next].None? || s.pool == {}
    ensures Control(DisconnectNext(s, s.reader.next, p))
  {
  }

  lemma ResumeControl(s: State, p: PacketId)
    requires Control(s) && Conserved(s) && s.reader.AwaitingPacket? && s.reader.slot < |s.slots| && p in s.pool
    ensures Control(ResumeDisconnect(s, s.reader.slot, p))
  {
    var i := s.reader.slot;
    if s.slots[i].Some? {
      StreamHasRoom(s, i, p);
      NextSlotControl(s, i);
      AcquireControl(s.(reader := Disconnecting(i + 1)), p);
      PushControl(Acquire(s, p).(reader := Disconnecting(i + 1)), i, p);
    } else {
      OrphanControl(s, p);
    }
  }

  lemma OrphanControl(s: State, p: PacketId)
    requires Control(s) && AwaitsReleased(s)
    ensures Control(ResumeDisconnect(s, s.reader.slot, p))
  {
  }

  lemma SentinelControl(s: State)
    requires Inv(s) && Enabled(s, ReaderSeesStreamsStop)
    ensures Control(Apply(s, ReaderSeesStreamsStop))
  {
    forall i ensures !Awaits(s, i) { if Awaits(s, i) { SlotTaken(s, i); } }
    QueuedOnce(s);
    SentinelHasRoom(s);
  }

  lemma WriterStopControl(s: State)
    requires Inv(s) && Enabled(s, ReaderSeesWriterStop)
    ensures Control(Apply(s, ReaderSeesWriterStop))
  {
  }

  lemma TakesControl(s: State)
    requires Control(s) && s.writer == Getting && s.queue != []
    ensures Control(TakeNext(s))
  {
  }

  lemma DrainsControl(s: State)
    requires Control(s) && s.writer == Draining && s.queue != []
    ensures Control(DropNext(s))
  {
  }

  lemma WrittenControl(s: State, success: bool)
    requires Control(s) && s.writer.Writing?
    ensures Control(Written(s, s.writer.hand, success))
  {
  }

  lemma FlushesControl(s: State, success: bool)
    requires Control(s) && s.writer == Flushing
    ensures Control(FlushEnds(s, success))
  {
  }

  /** Changing a stream's own packets, with its handler still running. */
  lemma SetControl(s: State, i: nat, r: RequestStream)
    requires Control(s) && i < MAX_STREAMS && s.slots[i].Some? && r.id == i
    requires r.awaits ==> r.currentWrite == None
    ensures Control(SetStream(s, i, r))
  {
    SameSlots(s, SetStream(s, i, r), i);
  }

  lemma BeginsControl(s: State, i: nat, p: PacketId)
    requires Inv(s) && Enabled(s, HandlerBeginsWrite(i, p))
    ensures Control(Apply(s, HandlerBeginsWrite(i, p)))
  {
    HandlerIsEarly(s, i);
    AcquireControl(s, p);
    SetControl(Acquire(s, p), i, s.slots[i].value.(currentWrite := Some(p)));
  }

  lemma PutControl(s: State, p: PacketId)
    requires Control(s) && !SentinelSent(s) && s.writer != WriterDone && |s.queue| < MAX_PACKETS
    ensures Control(PutToWriter(s, Some(p)))
  {
  }

  lemma PutsControl(s: State, i: nat, last: bool)
    requires Inv(s) && Enabled(s, HandlerPuts(i, last))
    ensures Control(Apply(s, HandlerPuts(i, last)))
  {
    HandlerIsEarly(s, i);
    var r := s.slots[i].value;
    var p := r.currentWrite.value;
    assert InQueue(s.queue)[p] == 0 by {
      InSlotsUpdate(s.slots, i, None, p);
      assert Places(s, p) == 1;
    }
    QueuedOnce(s);
    WriterHasRoom(s, p);
    PutControl(s, p);
    SetControl(PutToWriter(s, Some(p)), i, r.(currentWrite := None, flushed := last, awaits := true));
  }

  lemma GetsControl(s: State, i: nat, p: PacketId)
    requires Inv(s) && Enabled(s, HandlerGets(i, p))
    ensures Control(Apply(s, HandlerGets(i, p)))
  {
    HandlerIsEarly(s, i);
    AcquireControl(s, p);
    SetControl(Acquire(s, p), i, s.slots[i].value.(currentWrite := Some(p), awaits := false));
  }

  lemma TookControl(s: State, i: nat, accepts: bool)
    requires Inv(s) && Enabled(s, HandlerTakes(i, accepts))
    ensures Control(HandlerTook(s, i, accepts))
  {
    HandlerIsEarly(s, i);
    SameSlots(s, HandlerTook(s, i, accepts), i);
  }

  lemma HandlerDisconnectsControl(s: State, i: nat, p: PacketId)
    requires Inv(s) && Enabled(s, HandlerDisconnects(i, p))
    ensures Control(PutToStream(Acquire(s, p), i, p))
  {
    HandlerIsEarly(s, i);
    StreamHasRoom(s, i, p);
    AcquireControl(s, p);
    PushControl(Acquire(s, p), i, p);
  }

  lemma StopAsyncControl(s: State)
    requires Inv(s) && s.phase != Stopped
    ensures Control(StopAsync(s)) && Conserved(StopAsync(s)) && RoomInv(StopAsync(s))
  {
    forall p: PacketId ensures Places(StopAsync(s), p) == 1 { assert Places(s, p) == 1; }
    if i :| Awaits(s, i) { assert Awaits(StopAsync(s), i); }
  }

  lemma CloseControl(s: State, i: nat)
    requires Inv(s) && Handling(s, i)
    ensures Control(CloseStream(s, i))
  {
    HandlerIsEarly(s, i);
    SlotTaken(s, i);
    CloseSlots(s, i);
  }

  lemma ReturnsControl(s: State, i: nat, success: bool)
    requires Inv(s) && Enabled(s, HandlerReturns(i, success))
    ensures Control(CloseStream(if success then s else StopAsync(s), i))
  {
    HandlerIsEarly(s, i);
    StopAsyncControl(s);
    CloseControl(if success then s else StopAsync(s), i);
  }

  lemma StepControl(s: State, step: Step)
    requires Inv(s) && Enabled(s, step)
    ensures Control(Apply(s, step))
  {
    match step
    case ReaderAcquires(p) => ReaderAcquiresControl(s, p);
    case ReaderReads(opens, id) => DispatchControl(s, s.reader.hand, opens, id);
    case ReaderFails => LeaveLoopControl(s, s.reader.hand);
    case ReaderDisconnects(p) => DisconnectControl(s, p);
    case ReaderResumes(p) => ResumeControl(s, p);
    case ReaderSeesStreamsStop => SentinelControl(s);
    case ReaderSeesWriterStop => WriterStopControl(s);
    case WriterTakes => TakesControl(s);
    case WriterWrites(success) => WrittenControl(s, success);
    case WriterFlushes(success) => FlushesControl(s, success);
    case WriterDrains => DrainsControl(s);
    case HandlerBeginsWrite(i, p) => BeginsControl(s, i, p);
    case HandlerPuts(i, last) => PutsControl(s, i, last);
    case HandlerGets(i, p) => GetsControl(s, i, p);
    case HandlerTakes(i, accepts) => TookControl(s, i, accepts);
    case HandlerDisconnects(i, p) => HandlerDisconnectsControl(s, i, p);
    case HandlerReturns(i, success) => ReturnsControl(s, i, success);
    case ExternalStop => StopAsyncControl(s);
  }

  lemma StepInv(s: State, step: Step)
    requires Inv(s) && Enabled(s, step)
    ensures Inv(Apply(s, step))
  {
    StepConserves(s, step);
    StepRoom(s, step);
    StepControl(s, step);
  }

  lemma {:induction false} RunInv(s: State, steps: seq<Step>)
    requires Inv(s) && Run(s, steps).Some?
    ensures Inv(Run(s, steps).value)
    decreases |steps|
  {
    if steps != [] {
      StepInv(s, steps[0]);
      RunInv(Apply(s, steps[0]), steps[1..]);
    }
  }

  lemma InitInv(pool: set<PacketId>)
    requires forall p: PacketId :: p in pool
    ensures Inv(Init(pool))
  {
    InitConserved(pool);
    assert Occupied(Init(pool)) == {};
  }

  // ---- what every run guarantees ----

  /** From a start with every packet in the pool, whatever the fibers, the peer and the outside do, as long as
      handlers write before they flush and do neither after a flush: no assertion of the processor fails (in
      particular stop_async is never called once stopped), no queue put and no acquisition of a
      request stream ever has to wait, and every packet has exactly one owner. */
  lemma NoAssertionFails(pool: set<PacketId>, steps: seq<Step>)
    requires (forall p: PacketId :: p in pool) && Run(Init(pool), steps).Some?
    ensures var s := Run(Init(pool), steps).value;
            s.ok && forall p: PacketId :: Places(s, p) == 1
  {
    InitInv(pool);
    RunInv(Init(pool), steps);
  }

  /** The count is the number of occupied slots, slot i holds a stream with id i, a stream is left in the pool of
      streams for every free slot, and until the stopper consumes it the stop event is set exactly at count 0. */
  lemma StreamAccounting(pool: set<PacketId>, steps: seq<Step>)
    requires (forall p: PacketId :: p in pool) && Run(Init(pool), steps).Some?
    ensures var s := Run(Init(pool), steps).value;
            && s.count == |Occupied(s)| && s.freeStreams == MAX_STREAMS - |Occupied(s)|
            && (forall i :: i in Occupied(s) ==> s.slots[i].value.id == i)
            && (!SentinelSent(s) ==> (s.streamsEvent <==> Occupied(s) == {}))
  {
    InitInv(pool);
    RunInv(Init(pool), steps);
  }

  /** The sentinel is the last item ever put into the writer queue; and whenever the writer waits on an empty
      queue, everything it has written has been flushed. */
  lemma WriterGuarantees(pool: set<PacketId>, steps: seq<Step>)
    requires (forall p: PacketId :: p in pool) && Run(Init(pool), steps).Some?
    ensures var s := Run(Init(pool), steps).value;
            && (forall k :: 0 <= k < |s.puts| && s.puts[k] == None ==> k == |s.puts| - 1)
            && (s.writer == Getting && s.queue == [] ==> s.flushedTo == s.written)
  {
    InitInv(pool);
    RunInv(Init(pool), steps);
  }

  /** What has been put into the writer queue and is not in it any more has been taken, in the order of the puts; a
      packet the writer writes is the one it took last. */
  ghost predicate InOrder(s: State) {
    && |s.queue| <= |s.puts| && s.queue == s.puts[|s.puts| - |s.queue|..]
    && (s.writer.Writing? ==> |s.queue| < |s.puts| && s.puts[|s.puts| - |s.queue| - 1] == Some(s.writer.hand))
  }

  /** The writer writes packets in the order in which they were put into its queue. */
  lemma {:induction false} WrittenInOrder(pool: set<PacketId>, steps: seq<Step>)
    requires Run(Init(pool), steps).Some?
    ensures InOrder(Run(Init(pool), steps).value)
  {
    InOrderRun(Init(pool), steps);
  }

  lemma {:induction false} InOrderRun(s: State, steps: seq<Step>)
    requires InOrder(s) && Run(s, steps).Some?
    ensures InOrder(Run(s, steps).value)
    decreases |steps|
  {
    if steps != [] {
      InOrderStep(s, steps[0]);
      InOrderRun(Apply(s, steps[0]), steps[1..]);
    }
  }

  lemma InOrderStep(s: State, step: Step)
    requires InOrder(s) && Enabled(s, step)
    ensures InOrder(Apply(s, step))
  {
    if IsHandlerStep(step) {
      HandlerApart(s, step);
      PutInOrder(s, Apply(s, step));
    } else if IsWriterStep(step) {
      WriterApart(s, step);
      TakenInOrder(s, Apply(s, step));
    } else {
      ReaderApart(s, step);
      PutInOrder(s, Apply(s, step));
    }
  }

  lemma PutInOrder(s: State, t: State)
    requires InOrder(s) && t.writer == s.writer
    requires (t.queue == s.queue && t.puts == s.puts)
             || exists x :: t.queue == s.queue + [x] && t.puts == s.puts + [x]
    ensures InOrder(t)
  {
  }

  lemma TakenInOrder(s: State, t: State)
    requires InOrder(s) && t.puts == s.puts && (t.queue == s.queue || (s.queue != [] && t.queue == s.queue[1..]))
    requires t.writer.Writing? ==> s.queue != [] && t.queue == s.queue[1..] && s.queue[0] == Some(t.writer.hand)
    ensures InOrder(t)
  {
    if s.queue != [] {
      assert s.puts[|s.puts| - |s.queue|] == s.queue[0];
    }
  }

  lemma HandlerApart(s: State, step: Step)
    requires Enabled(s, step) && IsHandlerStep(step)
    ensures var t := Apply(s, step);
            && t.writer == s.writer && t.reader == s.reader && t.orphans == s.orphans
            && (if step.HandlerPuts? then
                  var x := s.slots[step.i].value.currentWrite; t.queue == s.queue + [x] && t.puts == s.puts + [x]
                else t.queue == s.queue && t.puts == s.puts)
  {
    match step
    case HandlerBeginsWrite(_, _) => case HandlerPuts(_, _) => case HandlerGets(_, _) => case HandlerTakes(_, _) =>
    case HandlerDisconnects(_, _) => case HandlerReturns(_, _) =>
  }

  lemma WriterApart(s: State, step: Step)
    requires Enabled(s, step) && IsWriterStep(step)
    ensures var t := Apply(s, step);
            && t.reader == s.reader && t.orphans == s.orphans && t.puts == s.puts
            && (t.queue == s.queue || (s.queue != [] && t.queue == s.queue[1..]))
            && (t.writer.Writing? ==> s.queue != [] && t.queue == s.queue[1..] && s.queue[0] == Some(t.writer.hand))
  {
    match step
    case WriterTakes => case WriterDrains =>
    case WriterWrites(success) => WrittenApart(s, s.writer.hand, success);
    case WriterFlushes(success) =>
  }

  lemma WrittenApart(s: State, p: PacketId, success: bool)
    ensures var t := Written(s, p, success);
            && t.reader == s.reader && t.orphans == s.orphans && t.puts == s.puts && t.queue == s.queue
            && !t.writer.Writing?
  {
  }

  lemma ReaderApart(s: State, step: Step)
    requires Enabled(s, step) && !IsHandlerStep(step) && !IsWriterStep(step)
    ensures var t := Apply(s, step);
            && t.writer == s.writer
            && (if step.ReaderSeesStreamsStop? then t.queue == s.queue + [None] && t.puts == s.puts + [None]
                else t.queue == s.queue && t.puts == s.puts)
  {
    match step
    case ReaderReads(opens, id) => DispatchApart(s, s.reader.hand, opens, id);
    case ReaderAcquires(_) => case ReaderFails => case ReaderSeesStreamsStop => case ReaderSeesWriterStop =>
    case ExternalStop =>
    case ReaderDisconnects(p) => DisconnectApart(s, s.reader.next, p);
    case ReaderResumes(p) => ResumeApart(s, s.reader.slot, p);
  }

  lemma DispatchApart(s: State, p: PacketId, opens: bool, id: nat)
    requires id < |s.slots|
    ensures var t := Dispatch(s, p, opens, id); t.writer == s.writer && t.queue == s.queue && t.puts == s.puts
  {
    if opens && s.slots[id].None? {
    } else if !opens && s.slots[id].Some? {
    } else {
    }
  }

  lemma PushApart(s: State, i: nat, p: PacketId)
    requires i < |s.slots| && s.slots[i].Some?
    ensures var t := PutToStream(s, i, p);
            t.writer == s.writer && t.queue == s.queue && t.puts == s.puts && t.phase == s.phase
  {
  }

  lemma DisconnectApart(s: State, i: nat, p: PacketId)
    ensures var t := DisconnectNext(s, i, p);
            t.writer == s.writer && t.queue == s.queue && t.puts == s.puts && t.phase == s.phase
  {
    if i < |s.slots| && s.slots[i].Some? && s.pool != {} {
      PushApart(Acquire(s, p), i, p);
    } else {
    }
  }

  lemma ResumeApart(s: State, i: nat, p: PacketId)
    requires i < |s.slots|
    ensures var t := ResumeDisconnect(s, i, p); t.writer == s.writer && t.queue == s.queue && t.puts == s.puts
  {
  }

  /** A stopped processor has no streams and an empty writer queue, after a clean stop and after a failed write
      alike. Its packets are back in the pool, all of them exactly if no stream was released while the reader was
      waiting for a packet to disconnect it with. */
  lemma StoppedIsClean(pool: set<PacketId>, steps: seq<Step>)
    requires (forall p: PacketId :: p in pool) && Run(Init(pool), steps).Some?
    requires Run(Init(pool), steps).value.phase == Stopped
    ensures var s := Run(Init(pool), steps).value;
            && s.queue == [] && s.writer == WriterDone && s.reader == ReaderDone && |s.slots| == MAX_STREAMS
            && (forall i :: 0 <= i < MAX_STREAMS ==> s.slots[i] == None) && s.count == 0 && s.freeStreams == MAX_STREAMS
            && !s.streamsEvent && !s.writerEvent
            && (forall p: PacketId :: p in s.pool <==> p !in s.orphans)
            && ((forall p: PacketId :: p in s.pool) <==> !s.late)
  {
    InitInv(pool);
    RunInv(Init(pool), steps);
    var s := Run(Init(pool), steps).value;
    forall i | 0 <= i < MAX_STREAMS ensures s.slots[i] == None { if s.slots[i].Some? { SlotTaken(s, i); } }
    forall p: PacketId ensures p in s.pool <==> p !in s.orphans { InSlotsEmpty(s.slots, p); assert Places(s, p) == 1; }
    if s.orphans != [] { assert s.orphans[0] in s.orphans; }
  }

  // ---- what the steps do ----

  ghost predicate Reachable(pool: set<PacketId>, s: State) {
    exists steps :: Run(Init(pool), steps) == Some(s)
  }

  lemma ReachableInv(pool: set<PacketId>, s: State)
    requires (forall p: PacketId :: p in pool) && Reachable(pool, s)
    ensures Inv(s)
  {
    var steps :| Run(Init(pool), steps) == Some(s);
    InitInv(pool);
    RunInv(Init(pool), steps);
  }

  /** What becomes of a frame. A continuing one goes to the end of the reader queue of the stream in its slot, an
      opening one opens a stream in its slot, if that is free; the reader then wants another packet and nothing else
      changes. Any other frame is dropped and ends the reader's loop. */
  ghost predicate TakesFrame(s: State, t: State, p: PacketId, opens: bool, i: nat)
    requires i < |s.slots|
  {
    match s.slots[i]
    case Some(r) =>
      if opens then EndsLoop(s, t, p)
      else t == s.(reader := Acquiring, slots := s.slots[i := Some(r.(readerQueue := r.readerQueue + [p]))])
    case None =>
      if !opens then EndsLoop(s, t, p)
      else
        t == s.(reader := Acquiring, slots := s.slots[i := Some(RequestStream(i, [p], None, None, false, false))],
                count := |Occupied(s)| + 1, freeStreams := 255 - |Occupied(s)|, streamsEvent := false)
  }

  ghost predicate EndsLoop(s: State, t: State, p: PacketId) {
    t == s.(reader := Disconnecting(0), pool := s.pool + {p}, phase := StopInitiated)
  }

  lemma FrameDispatch(pool: set<PacketId>, s: State, opens: bool, i: nat)
    requires (forall p: PacketId :: p in pool) && Reachable(pool, s) && s.reader.Reading? && i < 256
    ensures |s.slots| == 256 && Enabled(s, ReaderReads(opens, i))
    ensures TakesFrame(s, Apply(s, ReaderReads(opens, i)), s.reader.hand, opens, i)
  {
    ReachableInv(pool, s);
    StepInv(s, ReaderReads(opens, i));
    FrameShape(s, opens, i);
  }

  lemma FrameShape(s: State, opens: bool, i: nat)
    requires SlotsInv(s) && EventInv(s) && PhaseInv(s) && s.ok && Enabled(s, ReaderReads(opens, i))
    requires Apply(s, ReaderReads(opens, i)).ok
    ensures TakesFrame(s, Apply(s, ReaderReads(opens, i)), s.reader.hand, opens, i)
  {
  }

  /** What else the reader does. It takes packets from the pool. When reading fails it leaves its loop, and stops the
      streams: slot after slot, it puts a packet of the pool at the
      end of the reader queue of the stream it finds, waiting for one if there is none; then it waits until no stream
      is left, puts the sentinel, and is done when the writer is. */
  ghost predicate ReaderDoes(s: State, t: State, step: Step) {
    match step
    case ReaderAcquires(p) => p in s.pool && t == s.(reader := Reading(p), pool := s.pool - {p})
    case ReaderFails => s.reader.Reading? && EndsLoop(s, t, s.reader.hand)
    case ReaderDisconnects(p) =>
      s.reader.Disconnecting? &&
      var n := s.reader.next;
      if n >= 256 then t == s.(reader := AwaitingStreams)
      else
        n < |s.slots| &&
        if s.slots[n].None? then t == s.(reader := Disconnecting(n + 1))
        else if s.pool == {} then t == s.(reader := AwaitingPacket(n))
        else Disconnected(s, t, n, p)
    case ReaderResumes(p) =>
      s.reader.AwaitingPacket? &&
      var n := s.reader.slot;
      n < |s.slots| &&
      if s.slots[n].Some? then Disconnected(s, t, n, p)
      else t == s.(reader := Disconnecting(n + 1), pool := s.pool - {p}, orphans := s.orphans + [p])
    case ReaderSeesStreamsStop =>
      Occupied(s) == {}
      && t == s.(reader := AwaitingWriter, streamsEvent := false, queue := s.queue + [None], puts := s.puts + [None])
    case ReaderSeesWriterStop =>
      s.writer == WriterDone && t == s.(reader := ReaderDone, writerEvent := false, phase := Stopped)
    case _ => true
  }

  /** The stream in slot n has been disconnected with packet p of the pool. */
  ghost predicate Disconnected(s: State, t: State, n: nat, p: PacketId)
    requires n < |s.slots| && s.slots[n].Some?
  {
    var r := s.slots[n].value;
    p in s.pool && t == s.(reader := Disconnecting(n + 1), pool := s.pool - {p},
                           slots := s.slots[n := Some(r.(readerQueue := r.readerQueue + [p]))])
  }

  lemma ReaderSteps(pool: set<PacketId>, s: State, step: Step)
    requires (forall p: PacketId :: p in pool) && Reachable(pool, s) && Enabled(s, step)
    ensures ReaderDoes(s, Apply(s, step), step)
  {
    ReachableInv(pool, s);
    StepInv(s, step);
    match step
    case ReaderAcquires(_) =>
    case ReaderFails =>
    case ReaderDisconnects(p) => DisconnectShape(s, p);
    case ReaderResumes(p) => ResumeShape(s, p);
    case ReaderSeesStreamsStop =>
      forall i ensures i !in Occupied(s) { if i in Occupied(s) { SlotTaken(s, i); } }
    case _ =>
  }

  lemma DisconnectShape(s: State, p: PacketId)
    requires Enabled(s, ReaderDisconnects(p)) && SlotsInv(s) && s.ok && DisconnectNext(s, s.reader.next, p).ok
    ensures ReaderDoes(s, DisconnectNext(s, s.reader.next, p), ReaderDisconnects(p))
  {
  }

  lemma ResumeShape(s: State, p: PacketId)
    requires Enabled(s, ReaderResumes(p)) && s.ok && ResumeDisconnect(s, s.reader.slot, p).ok
    ensures ReaderDoes(s, ResumeDisconnect(s, s.reader.slot, p), ReaderResumes(p))
  {
  }

  /** What initiates a stop: a frame that does not fit its slot, a failed read, write or flush, a handler that fails,
      and whoever asks for it from outside. */
  predicate InitiatesStop(s: State, step: Step) {
    match step
    case ReaderReads(opens, i) => i < |s.slots| && (opens <==> s.slots[i].Some?)
    case ReaderFails => true
    case WriterWrites(success) => !success
    case WriterFlushes(success) => !success
    case HandlerReturns(_, success) => !success
    case ExternalStop => true
    case _ => false
  }

  /** In every reachable state, exactly these steps end the work, and only the reader, once the writer is done, ends the
      stop. */
  lemma StopInitiation(pool: set<PacketId>, s: State, step: Step)
    requires (forall p: PacketId :: p in pool) && Reachable(pool, s) && Enabled(s, step)
    ensures Apply(s, step).phase == if step.ReaderSeesWriterStop? then Stopped
                                    else if InitiatesStop(s, step) then StopInitiated else s.phase
  {
    ReachableInv(pool, s);
    if step.HandlerReturns? {
      HandlerIsEarly(s, step.i);
    }
    PhaseAfter(s, step);
  }

  lemma DispatchPhase(s: State, p: PacketId, opens: bool, i: nat)
    requires i < |s.slots| && s.phase != Stopped
    ensures Dispatch(s, p, opens, i).phase == if opens <==> s.slots[i].Some? then StopInitiated else s.phase
  {
  }

  lemma PhaseAfter(s: State, step: Step)
    requires PhaseInv(s) && Enabled(s, step) && (step.HandlerReturns? ==> s.phase != Stopped)
    ensures Apply(s, step).phase == if step.ReaderSeesWriterStop? then Stopped
                                    else if InitiatesStop(s, step) then StopInitiated else s.phase
  {
    match step
    case ReaderReads(opens, i) => DispatchPhase(s, s.reader.hand, opens, i);
    case ReaderDisconnects(p) => DisconnectApart(s, s.reader.next, p);
    case HandlerBeginsWrite(_, _) => case HandlerPuts(_, _) => case HandlerGets(_, _) => case HandlerTakes(_, _) =>
    case HandlerReturns(_, _) =>
    case _ =>
  }

  /** What the writer does: it takes the items of its queue in order, writes each packet and gives it back, flushes
      when its queue is empty, and ends at the sentinel; after a failure it only gives packets back until then. */
  ghost predicate WriterDoes(s: State, t: State, step: Step) {
    match step
    case WriterTakes =>
      s.queue != [] &&
      if s.queue[0].Some? then t == s.(queue := s.queue[1..], writer := Writing(s.queue[0].value))
      else t == s.(queue := [], writer := WriterDone, writerEvent := true)
    case WriterWrites(success) =>
      s.writer.Writing? &&
      var given := s.(pool := s.pool + {s.writer.hand});
      if !success then t == given.(writer := Draining, phase := StopInitiated)
      else t == given.(written := s.written + 1, writer := if s.queue == [] then Flushing else Getting)
    case WriterFlushes(success) =>
      if success then t == s.(flushedTo := s.written, writer := Getting)
      else t == s.(writer := Draining, phase := StopInitiated)
    case WriterDrains =>
      s.queue != [] &&
      if s.queue[0].Some? then t == s.(queue := s.queue[1..], pool := s.pool + {s.queue[0].value})
      else t == s.(queue := [], writer := WriterDone, writerEvent := true)
    case _ => true
  }

  lemma WriterSteps(pool: set<PacketId>, s: State, step: Step)
    requires (forall p: PacketId :: p in pool) && Reachable(pool, s) && Enabled(s, step) && IsWriterStep(step)
    ensures WriterDoes(s, Apply(s, step), step)
  {
    ReachableInv(pool, s);
    StepInv(s, step);
    WriterShape(s, step);
  }

  lemma WriterShape(s: State, step: Step)
    requires PhaseInv(s) && s.ok && Enabled(s, step) && Apply(s, step).ok && IsWriterStep(step)
    requires s.queue != [] && s.queue[0] == None ==> |s.queue| == 1
    ensures WriterDoes(s, Apply(s, step), step)
  {
  }

  /** What the handler of slot i does to its stream: it takes packets from the front of its reader queue, giving back
      the one it has read, or the one it refuses; it hands a packet over to the end of the writer queue and then waits
      for another; and when it returns all its packets are given back and its slot is free. */
  ghost predicate HandlerDoes(s: State, t: State, step: Step, i: nat)
    requires i < |s.slots| && s.slots[i].Some?
  {
    var r := s.slots[i].value;
    match step
    case HandlerBeginsWrite(_, p) =>
      p in s.pool && t == s.(pool := s.pool - {p}, slots := s.slots[i := Some(r.(currentWrite := Some(p)))])
    case HandlerPuts(_, last) =>
      r.currentWrite.Some?
      && t == s.(queue := s.queue + [r.currentWrite], puts := s.puts + [r.currentWrite],
                 slots := s.slots[i := Some(r.(currentWrite := None, flushed := last, awaits := true))])
    case HandlerGets(_, p) =>
      p in s.pool
      && t == s.(pool := s.pool - {p}, slots := s.slots[i := Some(r.(currentWrite := Some(p), awaits := false))])
    case HandlerTakes(_, accepts) =>
      r.readerQueue != [] &&
      var p, rest := r.readerQueue[0], r.readerQueue[1..];
      if accepts then
        t == s.(pool := s.pool + OptSet(r.currentRead),
                slots := s.slots[i := Some(r.(readerQueue := rest, currentRead := Some(p)))])
      else t == s.(pool := s.pool + {p}, slots := s.slots[i := Some(r.(readerQueue := rest))])
    case HandlerDisconnects(_, p) =>
      p in s.pool
      && t == s.(pool := s.pool - {p}, slots := s.slots[i := Some(r.(readerQueue := r.readerQueue + [p]))])
    case HandlerReturns(_, success) =>
      t.slots == s.slots[i := None]
      && (forall p: PacketId :: p in t.pool <==> p in s.pool || InStream(r, p) > 0)
      && t.queue == s.queue && t.reader == s.reader && t.count == |Occupied(t)|
    case _ => true
  }

  lemma HandlerSteps(pool: set<PacketId>, s: State, step: Step)
    requires (forall p: PacketId :: p in pool) && Reachable(pool, s) && Enabled(s, step) && IsHandlerStep(step)
    ensures HandlerDoes(s, Apply(s, step), step, step.i)
  {
    ReachableInv(pool, s);
    StepInv(s, step);
    match step
    case HandlerReturns(i, success) => ReturnShape(s, i, success);
    case _ => HandlerShape(s, step);
  }

  lemma HandlerShape(s: State, step: Step)
    requires Enabled(s, step) && IsHandlerStep(step) && !step.HandlerReturns? && s.ok && Apply(s, step).ok
    ensures HandlerDoes(s, Apply(s, step), step, step.i)
  {
  }

  lemma ReturnShape(s: State, i: nat, success: bool)
    requires SlotsInv(s) && Enabled(s, HandlerReturns(i, success)) && SlotsInv(Apply(s, HandlerReturns(i, success)))
    ensures HandlerDoes(s, Apply(s, HandlerReturns(i, success)), HandlerReturns(i, success), i)
  {
    var r := s.slots[i].value;
    assert forall p: PacketId :: p in r.readerQueue <==> multiset(r.readerQueue)[p] > 0;
  }

  // ---- when everything stands still ----

  /** Packet p is held by a stream whose handler waits for a packet. */
  predicate HeldByWaiting(s: State, p: PacketId) {
    exists i :: 0 <= i < |s.slots| && Awaits(s, i) && HoldsForReading(s.slots[i].value, p)
  }

  predicate HoldsForReading(r: RequestStream, p: PacketId) {
    p in r.readerQueue || r.currentRead == Some(p)
  }

  /** There are streams, all their handlers wait for a packet, and they hold all packets but the orphans; the reader
      waits for one too, or for the streams to end, and the writer for something to write. */
  ghost predicate Jammed(s: State) {
    && s.count > 0 && (forall i :: i in Occupied(s) ==> Awaits(s, i))
    && (forall p: PacketId :: HeldByWaiting(s, p) || p in s.orphans)
    && (s.reader == Acquiring || s.reader.AwaitingPacket? || s.reader == AwaitingStreams)
    && (s.writer == Getting || s.writer == Draining)
  }

  /** No fiber can take a step. */
  ghost predicate StandsStill(s: State) {
    forall step :: Enabled(s, step) ==> step == ExternalStop
  }

  /** In every reachable state: no fiber can go on, whatever the peer does, if and only if the processor has stopped, or
      is jammed: every packet that is not lost is held by a stream whose handler waits for a packet. */
  lemma StandstillExactly(pool: set<PacketId>, steps: seq<Step>)
    requires (forall p: PacketId :: p in pool) && Run(Init(pool), steps).Some?
    ensures var s := Run(Init(pool), steps).value;
            StandsStill(s) <==> s.phase == Stopped || Jammed(s)
  {
    InitInv(pool);
    RunInv(Init(pool), steps);
    var s := Run(Init(pool), steps).value;
    assert LostFew(Init(pool));
    LostFewRun(Init(pool), steps);
    if StandsStill(s) && s.phase != Stopped {
      StillIsJammed(s);
    }
    if s.phase == Stopped {
      StoppedIsClean(pool, steps);
    }
    if Jammed(s) {
      JammedIsStill(s);
    }
  }

  /** How far the reader has got in stopping the streams; it loses at most one packet at each slot. */
  function SlotsDone(r: Reader): nat {
    match r
    case Disconnecting(n) => n
    case AwaitingPacket(n) => n
    case Acquiring => 0
    case Reading(_) => 0
    case _ => MAX_STREAMS
  }

  predicate LostFew(s: State) {
    |s.orphans| <= SlotsDone(s.reader) <= MAX_STREAMS
  }

  lemma LostFewStep(s: State, step: Step)
    requires LostFew(s) && |s.slots| == MAX_STREAMS && Enabled(s, step)
    ensures LostFew(Apply(s, step))
  {
    if IsHandlerStep(step) {
      HandlerApart(s, step);
    } else if IsWriterStep(step) {
      WriterApart(s, step);
    } else {
      LostFewReader(s, step);
    }
  }

  lemma LostFewReader(s: State, step: Step)
    requires LostFew(s) && |s.slots| == MAX_STREAMS && Enabled(s, step) && !IsHandlerStep(step) && !IsWriterStep(step)
    ensures LostFew(Apply(s, step))
  {
    match step
    case ReaderAcquires(_) => case ReaderReads(_, _) => case ReaderFails =>
    case ReaderDisconnects(p) => LostFewDisconnect(s, p);
    case ReaderResumes(_) => case ReaderSeesStreamsStop => case ReaderSeesWriterStop => case ExternalStop =>
  }

  lemma LostFewDisconnect(s: State, p: PacketId)
    requires LostFew(s) && |s.slots| == MAX_STREAMS && Enabled(s, ReaderDisconnects(p))
    ensures LostFew(DisconnectNext(s, s.reader.next, p))
  {
  }

  lemma {:induction false} LostFewRun(s: State, steps: seq<Step>)
    requires Inv(s) && LostFew(s) && Run(s, steps).Some?
    ensures LostFew(Run(s, steps).value)
    decreases |steps|
  {
    if steps != [] {
      StepInv(s, steps[0]);
      LostFewStep(s, steps[0]);
      LostFewRun(Apply(s, steps[0]), steps[1..]);
    }
  }

  /** A bag with every packet below n has at least n elements. */
  lemma {:induction false} AtLeast(m: multiset<PacketId>, n: nat)
    requires n <= MAX_PACKETS && forall p: PacketId :: p < n ==> m[p] >= 1
    ensures |m| >= n
  {
    if n > 0 {
      var last: PacketId := n - 1;
      AtLeast(m - multiset{last}, n - 1);
      assert m == (m - multiset{last}) + multiset{last};
    }
  }

  lemma {:induction false} InSomeSlot(slots: seq<Option<RequestStream>>, p: PacketId) returns (i: nat)
    requires InSlots(slots, p) > 0
    ensures i < |slots| && InSlot(slots[i], p) > 0
  {
    if InSlot(slots[0], p) > 0 {
      i := 0;
    } else {
      i := InSomeSlot(slots[1..], p);
      i := i + 1;
    }
  }

  /** Nothing is in the pool, in the writer queue or in the hands of a fiber. */
  predicate AllInSlots(s: State) {
    s.pool == {} && s.queue == [] && !s.reader.Reading? && !s.writer.Writing?
  }

  lemma StillWaits(s: State)
    requires Control(s) && StandsStill(s) && s.phase != Stopped
    ensures s.reader == Acquiring || s.reader.AwaitingPacket? || (s.reader == AwaitingStreams && s.count > 0)
    ensures (s.writer == Getting || s.writer == Draining) && s.queue == []
    ensures s.reader == Acquiring || s.reader.AwaitingPacket? ==> s.pool == {}
    ensures forall i :: i in Occupied(s) ==> Awaits(s, i) && s.pool == {}
  {
    WriterStill(s);
    ReaderStill(s);
    forall i | i in Occupied(s)
      ensures Awaits(s, i) && s.pool == {}
    {
      assert !Enabled(s, HandlerReturns(i, true));
      if s.pool != {} {
        var p :| p in s.pool;
        assert Enabled(s, HandlerGets(i, p));
      }
    }
  }

  lemma WriterStill(s: State)
    requires StandsStill(s)
    ensures !s.writer.Writing? && s.writer != Flushing
    ensures s.writer == Getting || s.writer == Draining ==> s.queue == []
  {
    assert !Enabled(s, WriterWrites(true)) && !Enabled(s, WriterFlushes(true));
    assert !Enabled(s, WriterTakes) && !Enabled(s, WriterDrains);
  }

  lemma ReaderStill(s: State)
    requires StandsStill(s)
    ensures !s.reader.Reading? && !s.reader.Disconnecting?
    ensures s.reader == Acquiring || (s.reader.AwaitingPacket? && s.reader.slot < |s.slots|) ==> s.pool == {}
    ensures s.reader == AwaitingStreams ==> !s.streamsEvent
    ensures s.reader == AwaitingWriter ==> !s.writerEvent
  {
    assert !Enabled(s, ReaderFails) && !Enabled(s, ReaderSeesStreamsStop) && !Enabled(s, ReaderSeesWriterStop);
    if s.pool != {} {
      var p :| p in s.pool;
      assert !Enabled(s, ReaderAcquires(p)) && !Enabled(s, ReaderResumes(p)) && !Enabled(s, ReaderDisconnects(p));
    } else {
      assert !Enabled(s, ReaderDisconnects(0));
    }
  }

  lemma StillIsJammed(s: State)
    requires Inv(s) && LostFew(s) && StandsStill(s) && s.phase != Stopped
    ensures Jammed(s)
  {
    StillWaits(s);
    if s.count == 0 {
      forall p: PacketId
        ensures multiset(s.orphans)[p] >= 1
      {
        forall i | 0 <= i < |s.slots| ensures s.slots[i] == None { if s.slots[i].Some? { SlotTaken(s, i); } }
        InSlotsEmpty(s.slots, p);
        assert Places(s, p) == 1;
      }
      AtLeast(multiset(s.orphans), MAX_PACKETS);
      assert false;
    }
    var i :| i in Occupied(s);
    assert s.pool == {};
    forall p: PacketId
      ensures HeldByWaiting(s, p) || p in s.orphans
    {
      assert Places(s, p) == 1;
      if p !in s.orphans {
        HeldSomewhere(s, p);
      }
    }
  }

  lemma HeldSomewhere(s: State, p: PacketId)
    requires SlotsInv(s) && InSlots(s.slots, p) > 0 && forall i :: i in Occupied(s) ==> Awaits(s, i)
    ensures HeldByWaiting(s, p)
  {
    var i := InSomeSlot(s.slots, p);
    assert i in Occupied(s) && HoldsForReading(s.slots[i].value, p);
  }

  lemma HeldIsInSlots(s: State, p: PacketId)
    requires HeldByWaiting(s, p)
    ensures InSlots(s.slots, p) > 0
  {
    var i :| 0 <= i < |s.slots| && Awaits(s, i) && HoldsForReading(s.slots[i].value, p);
    InSlotsUpdate(s.slots, i, None, p);
  }

  lemma JammedIsStill(s: State)
    requires Inv(s) && Jammed(s)
    ensures StandsStill(s)
  {
    forall p: PacketId
      ensures p !in s.pool && InQueue(s.queue)[p] == 0
    {
      assert Places(s, p) == 1;
      if HeldByWaiting(s, p) { HeldIsInSlots(s, p); }
    }
    NothingQueued(s.queue);
    JammedWaits(s);
  }

  lemma NothingQueued(q: seq<Option<PacketId>>)
    requires (forall p: PacketId :: InQueue(q)[p] == 0) && forall k :: 0 <= k < |q| ==> q[k].Some?
    ensures q == []
  {
    if q != [] {
      HeadPlaces(q, q[0].value);
    }
  }

  lemma JammedWaits(s: State)
    requires Control(s) && Jammed(s) && s.pool == {} && s.queue == []
    ensures StandsStill(s)
  {
    forall i | 0 <= i < |s.slots| && s.slots[i].Some?
      ensures Awaits(s, i)
    {
      assert i in Occupied(s);
    }
  }

  // ---- the late release does happen ----

  lemma {:induction false} RunAppend(s: State, steps: seq<Step>, step: Step)
    requires Run(s, steps).Some? && Enabled(Run(s, steps).value, step)
    ensures Run(s, steps + [step]) == Some(Apply(Run(s, steps).value, step))
    decreases |steps|
  {
    if steps == [] {
      assert ([] + [step])[1..] == [];
    } else {
      assert (steps + [step])[1..] == steps[1..] + [step];
      RunAppend(Apply(s, steps[0]), steps[1..], step);
    }
  }

  lemma ReachNext(pool: set<PacketId>, s: State, step: Step)
    requires Reachable(pool, s) && Enabled(s, step)
    ensures Reachable(pool, Apply(s, step))
  {
    var steps :| Run(Init(pool), steps) == Some(s);
    RunAppend(Init(pool), steps, step);
  }

  lemma StepTo(pool: set<PacketId>, s: State, step: Step) returns (s': State)
    requires Reachable(pool, s) && Enabled(s, step)
    ensures Reachable(pool, s') && s' == Apply(s, step)
  {
    ReachNext(pool, s, step);
    s' := Apply(s, step);
  }

  /** Streams 0 to n - 1 have just been opened, each by the packet of its number, and the reader wants another. */
  ghost predicate JustOpened(s: State, n: nat) {
    && s.phase == Working && s.reader == Acquiring && s.writer == Getting
    && |s.slots| == MAX_STREAMS && s.orphans == [] && s.queue == []
    && (forall i :: n <= i < MAX_STREAMS ==> s.slots[i] == None)
    && (forall p: PacketId :: p in s.pool <==> p >= n)
    && (n > 0 ==> s.slots[0] == Some(RequestStream(0, [0], None, None, false, false)))
    && (n > 1 ==> s.slots[1] == Some(RequestStream(1, [1], None, None, false, false)))
  }

  lemma OpenAnother(pool: set<PacketId>, s: State, n: nat) returns (s': State)
    requires Reachable(pool, s) && JustOpened(s, n) && n <= 1
    ensures Reachable(pool, s') && JustOpened(s', n + 1)
  {
    s' := StepTo(pool, s, ReaderAcquires(n));
    s' := StepTo(pool, s', ReaderReads(true, n));
  }

  /** Two handlers are active and the reader waits for a frame; the first handler is writing and holds packet k,
      and all packets up to k are in use. */
  ghost predicate Filling(s: State, k: PacketId) {
    && s.phase == Working && s.reader == Reading(2) && s.writer == Getting
    && |s.slots| == MAX_STREAMS && s.orphans == []
    && s.slots[0] == Some(RequestStream(0, [0], None, Some(k), false, false))
    && s.slots[1] == Some(RequestStream(1, [1], None, None, false, false))
    && (forall i :: 2 <= i < MAX_STREAMS ==> s.slots[i] == None)
    && (forall p: PacketId :: p in s.pool <==> p > k)
  }

  lemma FillingStarts(pool: set<PacketId>) returns (s: State)
    requires forall p: PacketId :: p in pool
    ensures Reachable(pool, s) && Filling(s, 3)
  {
    s := Init(pool);
    assert Run(Init(pool), []) == Some(s);
    assert JustOpened(s, 0);
    s := OpenAnother(pool, s, 0);
    s := OpenAnother(pool, s, 1);
    s := BeginFilling(pool, s);
  }

  lemma BeginFilling(pool: set<PacketId>, s: State) returns (s': State)
    requires Reachable(pool, s) && JustOpened(s, 2)
    ensures Reachable(pool, s') && Filling(s', 3)
  {
    s' := AcquireThird(pool, s);
    s' := StepTo(pool, s', HandlerBeginsWrite(0, 3));
  }

  lemma AcquireThird(pool: set<PacketId>, s: State) returns (s': State)
    requires Reachable(pool, s) && JustOpened(s, 2)
    ensures Reachable(pool, s') && s' == Acquire(s, 2).(reader := Reading(2))
  {
    s' := StepTo(pool, s, ReaderAcquires(2));
  }

  lemma FillOne(pool: set<PacketId>, s: State, k: PacketId) returns (s': State)
    requires Reachable(pool, s) && Filling(s, k) && k + 1 < MAX_PACKETS
    ensures Reachable(pool, s') && Filling(s', k + 1)
  {
    s' := StepTo(pool, s, HandlerPuts(0, false));
    s' := StepTo(pool, s', HandlerGets(0, k + 1));
  }

  lemma {:induction false} FillAll(pool: set<PacketId>, s: State, k: PacketId) returns (s': State)
    requires Reachable(pool, s) && Filling(s, k)
    ensures Reachable(pool, s') && Filling(s', MAX_PACKETS - 1)
    decreases MAX_PACKETS - k
  {
    s' := s;
    if k + 1 < MAX_PACKETS {
      s' := FillOne(pool, s, k);
      s' := FillAll(pool, s', k + 1);
    }
  }

  /** The reader has stopped reading, has disconnected the first stream with the last free packet, and waits for
      another packet to disconnect the second one. */
  ghost predicate Stuck(s: State) {
    && s.phase == StopInitiated && s.reader == AwaitingPacket(1) && s.writer == Getting
    && |s.slots| == MAX_STREAMS && s.orphans == [] && Handling(s, 0)
    && s.slots[1] == Some(RequestStream(1, [1], None, None, false, false))
    && (forall i :: 2 <= i < MAX_STREAMS ==> s.slots[i] == None)
  }

  lemma GetStuck(pool: set<PacketId>, s: State) returns (s': State)
    requires Reachable(pool, s) && Filling(s, MAX_PACKETS - 1)
    ensures Reachable(pool, s') && Stuck(s')
  {
    s' := StepTo(pool, s, ReaderFails);
    assert s'.pool == {2};
    s' := StepTo(pool, s', ReaderDisconnects(2));
    assert s'.pool == {} && s'.reader == Disconnecting(1);
    s' := StepTo(pool, s', ReaderDisconnects(2));
  }

  /** Packet 1 is lost, only the first stream is left, and the reader is about to look at slot n. */
  ghost predicate Skipping(s: State, n: nat) {
    && s.phase == StopInitiated && s.reader == Disconnecting(n) && s.writer == Getting
    && |s.slots| == MAX_STREAMS && s.orphans == [1] && Handling(s, 0)
    && (forall i :: 1 <= i < MAX_STREAMS ==> s.slots[i] == None)
  }

  lemma LosePacket(pool: set<PacketId>, s: State) returns (s': State)
    requires Reachable(pool, s) && Stuck(s)
    ensures Reachable(pool, s') && Skipping(s', 2)
  {
    s' := ReturnLate(pool, s);
    s' := StepTo(pool, s', ReaderResumes(1));
  }

  lemma ReturnLate(pool: set<PacketId>, s: State) returns (s': State)
    requires Reachable(pool, s) && Stuck(s)
    ensures Reachable(pool, s') && s'.phase == StopInitiated && s'.reader == AwaitingPacket(1) && s'.writer == Getting
    ensures |s'.slots| == MAX_STREAMS && s'.orphans == [] && Handling(s', 0) && 1 in s'.pool
    ensures forall i :: 1 <= i < MAX_STREAMS ==> s'.slots[i] == None
  {
    s' := StepTo(pool, s, HandlerReturns(1, false));
  }

  lemma {:induction false} SkipAll(pool: set<PacketId>, s: State, n: nat) returns (s': State)
    requires Reachable(pool, s) && Skipping(s, n) && 0 < n <= MAX_STREAMS
    ensures Reachable(pool, s') && Skipping(s', MAX_STREAMS)
    decreases MAX_STREAMS - n
  {
    s' := s;
    if n < MAX_STREAMS {
      s' := StepTo(pool, s, ReaderDisconnects(0));
      s' := SkipAll(pool, s', n + 1);
    }
  }

  /** Packet 1 is lost and the reader waits for the writer, which has the sentinel still before it. */
  ghost predicate Ending(s: State) {
    s.reader == AwaitingWriter && s.orphans == [1]
  }

  lemma PutSentinel(pool: set<PacketId>, s: State) returns (s': State)
    requires (forall p: PacketId :: p in pool) && Reachable(pool, s) && Skipping(s, MAX_STREAMS)
    ensures Reachable(pool, s') && Ending(s') && s'.writer == Getting
  {
    s' := StepTo(pool, s, ReaderDisconnects(0));
    s' := StepTo(pool, s', HandlerReturns(0, true));
    assert s'.slots[0] == None && s'.reader == AwaitingStreams && s'.writer == Getting && s'.orphans == [1];
    ReachableInv(pool, s');
    assert Occupied(s') == {};
    s' := StepTo(pool, s', ReaderSeesStreamsStop);
  }

  /** The writer fails to write, or finds nothing to write before the sentinel. */
  lemma FailToWrite(pool: set<PacketId>, s: State) returns (s': State)
    requires (forall p: PacketId :: p in pool) && Reachable(pool, s) && Ending(s) && s.writer == Getting
    ensures Reachable(pool, s') && Ending(s') && (s'.writer == Draining || s'.writer == WriterDone)
  {
    ReachableInv(pool, s);
    s' := StepTo(pool, s, WriterTakes);
    if s.queue[0].Some? {
      s' := StepTo(pool, s', WriterWrites(false));
    }
  }

  lemma {:induction false} DrainAll(pool: set<PacketId>, s: State) returns (s': State)
    requires (forall p: PacketId :: p in pool) && Reachable(pool, s) && Ending(s)
    requires s.writer == Draining || s.writer == WriterDone
    ensures Reachable(pool, s') && Ending(s') && s'.writer == WriterDone
    decreases |s.queue|
  {
    s' := s;
    if s.writer == Draining {
      ReachableInv(pool, s);
      s' := StepTo(pool, s, WriterDrains);
      s' := DrainAll(pool, s');
    }
  }

  lemma StopAtLast(pool: set<PacketId>, s: State) returns (s': State)
    requires (forall p: PacketId :: p in pool) && Reachable(pool, s) && Ending(s) && s.writer == WriterDone
    ensures Reachable(pool, s') && s'.phase == Stopped && s'.orphans == [1]
  {
    ReachableInv(pool, s);
    s' := StepTo(pool, s, ReaderSeesWriterStop);
  }

  /** There is a run in which the reader finds the pool empty while it disconnects the second stream, that stream's
      handler returns meanwhile, the packet the reader then gets is lost to the released stream, and the processor
      ends up stopped without that packet in its pool. */
  lemma LateReleaseHappens(pool: set<PacketId>)
    requires forall p: PacketId :: p in pool
    ensures exists steps :: Run(Init(pool), steps).Some? && StoppedWithout(Run(Init(pool), steps).value, 1)
  {
    var s := LoseOne(pool);
    s := PutSentinel(pool, s);
    s := FailToWrite(pool, s);
    s := DrainAll(pool, s);
    s := StopAtLast(pool, s);
    var steps :| Run(Init(pool), steps) == Some(s);
    StoppedIsClean(pool, steps);
    assert StoppedWithout(Run(Init(pool), steps).value, 1);
  }

  lemma LoseOne(pool: set<PacketId>) returns (s: State)
    requires forall p: PacketId :: p in pool
    ensures Reachable(pool, s) && Skipping(s, MAX_STREAMS)
  {
    s := FillingStarts(pool);
    s := FillAll(pool, s, 3);
    s := GetStuck(pool, s);
    s := LosePacket(pool, s);
    s := SkipAll(pool, s, 2);
  }

  ghost predicate StoppedWithout(s: State, p: PacketId) {
    s.phase == Stopped && p !in s.pool && s.orphans == [p]
  }

  // ---- a standstill does happen ----

  /** The only stream is stream 0, its handler holds packet 1 for writing, and the packets from k on are free: the
      others have been pushed to it. */
  ghost predicate Flooding(s: State, k: nat) {
    && s.phase == Working && s.reader == Acquiring && s.writer == Getting && s.queue == [] && s.orphans == []
    && |s.slots| == MAX_STREAMS && Handling(s, 0) && !s.slots[0].value.flushed
    && s.slots[0].value.currentWrite == Some(1)
    && (forall i :: 1 <= i < MAX_STREAMS ==> s.slots[i] == None)
    && (forall p: PacketId :: p in s.pool <==> p >= k)
  }

  lemma FloodStarts(pool: set<PacketId>) returns (s: State)
    requires forall p: PacketId :: p in pool
    ensures Reachable(pool, s) && Flooding(s, 2)
  {
    s := Init(pool);
    assert Run(Init(pool), []) == Some(s);
    assert JustOpened(s, 0);
    s := OpenAnother(pool, s, 0);
    s := BeginFlood(pool, s);
  }

  lemma BeginFlood(pool: set<PacketId>, s: State) returns (s': State)
    requires Reachable(pool, s) && JustOpened(s, 1)
    ensures Reachable(pool, s') && Flooding(s', 2)
  {
    s' := StepTo(pool, s, HandlerBeginsWrite(0, 1));
  }

  lemma FloodOne(pool: set<PacketId>, s: State, k: PacketId) returns (s': State)
    requires Reachable(pool, s) && Flooding(s, k)
    ensures Reachable(pool, s') && Flooding(s', k + 1)
  {
    s' := StepTo(pool, s, ReaderAcquires(k));
    s' := StepTo(pool, s', ReaderReads(false, 0));
  }

  lemma {:induction false} FloodAll(pool: set<PacketId>, s: State, k: nat) returns (s': State)
    requires Reachable(pool, s) && Flooding(s, k) && k <= MAX_PACKETS
    ensures Reachable(pool, s') && Flooding(s', MAX_PACKETS)
    decreases MAX_PACKETS - k
  {
    s' := s;
    if k < MAX_PACKETS {
      s' := FloodOne(pool, s, k);
      s' := FloodAll(pool, s', k + 1);
    }
  }

  /** The handler has handed its packet over and waits; all others have been pushed to its stream. */
  ghost predicate Flooded(s: State) {
    && s.phase == Working && s.reader == Acquiring && s.orphans == [] && Awaits(s, 0)
    && |s.slots| == MAX_STREAMS && (forall i :: 1 <= i < MAX_STREAMS ==> s.slots[i] == None)
  }

  lemma HandOver(pool: set<PacketId>, s: State) returns (s': State)
    requires Reachable(pool, s) && Flooding(s, MAX_PACKETS)
    ensures Reachable(pool, s') && Flooded(s') && s'.pool == {} && s'.writer == Getting && s'.queue == [Some(1)]
  {
    assert s.pool == {};
    s' := StepTo(pool, s, HandlerPuts(0, false));
  }

  lemma WriteBack(pool: set<PacketId>, s: State) returns (s': State)
    requires Reachable(pool, s) && Flooded(s) && s.pool == {} && s.writer == Getting && s.queue == [Some(1)]
    ensures Reachable(pool, s') && Flooded(s') && s'.pool == {1} && s'.writer == Getting && s'.queue == []
  {
    s' := StepTo(pool, s, WriterTakes);
    assert s'.queue == [] && s'.writer == Writing(1);
    s' := StepTo(pool, s', WriterWrites(true));
    s' := StepTo(pool, s', WriterFlushes(true));
  }

  lemma LastPush(pool: set<PacketId>, s: State) returns (s': State)
    requires Reachable(pool, s) && Flooded(s) && s.pool == {1} && s.writer == Getting && s.queue == []
    ensures Reachable(pool, s') && Flooded(s') && s'.pool == {} && s'.writer == Getting && s'.queue == []
  {
    s' := StepTo(pool, s, ReaderAcquires(1));
    s' := StepTo(pool, s', ReaderReads(false, 0));
  }

  lemma FloodedIsJammed(s: State)
    requires Inv(s) && Flooded(s) && s.pool == {} && s.writer == Getting && s.queue == []
    ensures Jammed(s)
  {
    assert Occupied(s) == {0};
    forall p: PacketId
      ensures HeldByWaiting(s, p)
    {
      assert Places(s, p) == 1;
      HeldSomewhere(s, p);
    }
  }

  /** There is a run in which a peer sends one request in more packets than its handler reads before it answers, and
      everything comes to a standstill, although nothing has failed and nobody has asked for a stop. */
  lemma StandstillHappens(pool: set<PacketId>)
    requires forall p: PacketId :: p in pool
    ensures exists steps :: Run(Init(pool), steps).Some? && JammedAtWork(Run(Init(pool), steps).value)
  {
    var s := FloodStarts(pool);
    s := FloodAll(pool, s, 2);
    s := HandOver(pool, s);
    s := WriteBack(pool, s);
    s := LastPush(pool, s);
    ReachableInv(pool, s);
    FloodedIsJammed(s);
    var steps :| Run(Init(pool), steps) == Some(s);
    assert JammedAtWork(Run(Init(pool), steps).value);
  }

  ghost predicate JammedAtWork(s: State) {
    Jammed(s) && s.phase == Working
  }

  // ---- a request is served, and a clean stop ----

  /** Nothing is under way but what the reader does. */
  ghost predicate Quiet(s: State) {
    && |s.slots| == MAX_STREAMS && (forall i :: 0 <= i < MAX_STREAMS ==> s.slots[i] == None)
    && s.queue == [] && s.writer == Getting && s.orphans == [] && !s.late
  }

  lemma OpenFirst(pool: set<PacketId>) returns (s: State)
    requires forall p: PacketId :: p in pool
    ensures Reachable(pool, s) && JustOpened(s, 1) && !s.late
  {
    s := Init(pool);
    assert Run(Init(pool), []) == Some(s);
    assert JustOpened(s, 0);
    s := StepTo(pool, s, ReaderAcquires(0));
    s := StepTo(pool, s, ReaderReads(true, 0));
  }

  /** The handler of stream 0 has read its packet 0 and writes into packet 1. */
  lemma TakeAndWrite(pool: set<PacketId>, s: State) returns (s': State)
    requires Reachable(pool, s) && JustOpened(s, 1) && !s.late
    ensures Reachable(pool, s') && s'.reader == Acquiring && s'.writer == Getting && s'.queue == []
    ensures s'.phase == Working && s'.orphans == [] && !s'.late && |s'.slots| == MAX_STREAMS
    ensures s'.slots[0] == Some(RequestStream(0, [], Some(0), Some(1), false, false))
    ensures (forall i :: 1 <= i < MAX_STREAMS ==> s'.slots[i] == None) && forall p: PacketId :: p in s'.pool <==> p >= 2
  {
    s' := StepTo(pool, s, HandlerTakes(0, true));
    s' := StepTo(pool, s', HandlerBeginsWrite(0, 1));
  }

  /** It flushes, and the writer writes its packet, and flushes. */
  lemma FlushAndWrite(pool: set<PacketId>, s: State) returns (s': State)
    requires Reachable(pool, s) && s.reader == Acquiring && s.writer == Getting && s.queue == [] && s.phase == Working
    requires s.orphans == [] && !s.late && |s.slots| == MAX_STREAMS
    requires s.slots[0] == Some(RequestStream(0, [], Some(0), Some(1), false, false))
    requires forall i :: 1 <= i < MAX_STREAMS ==> s.slots[i] == None
    ensures Reachable(pool, s') && s'.reader == Acquiring && s'.writer == Getting && s'.queue == []
    ensures s'.phase == Working && s'.orphans == [] && !s'.late && |s'.slots| == MAX_STREAMS
    ensures s'.flushedTo == s'.written == s.written + 1
    ensures s'.slots[0] == Some(RequestStream(0, [], Some(0), None, true, true)) && 1 in s'.pool
    ensures forall i :: 1 <= i < MAX_STREAMS ==> s'.slots[i] == None
  {
    s' := StepTo(pool, s, HandlerPuts(0, true));
    s' := StepTo(pool, s', WriterTakes);
    assert s'.writer == Writing(1) && s'.queue == [];
    s' := StepTo(pool, s', WriterWrites(true));
    s' := StepTo(pool, s', WriterFlushes(true));
  }

  /** It returns, and the reader fails to read another frame. */
  lemma ReturnAndFail(pool: set<PacketId>, s: State) returns (s': State)
    requires Reachable(pool, s) && s.reader == Acquiring && s.writer == Getting && s.queue == [] && s.phase == Working
    requires s.orphans == [] && !s.late && |s.slots| == MAX_STREAMS && 1 in s.pool
    requires s.slots[0] == Some(RequestStream(0, [], Some(0), None, true, true))
    requires forall i :: 1 <= i < MAX_STREAMS ==> s.slots[i] == None
    ensures Reachable(pool, s') && Quiet(s') && s'.reader == Disconnecting(0) && s'.written == s.written
    ensures s'.flushedTo == s.flushedTo
  {
    s' := StepTo(pool, s, HandlerGets(0, 1));
    s' := StepTo(pool, s', HandlerReturns(0, true));
    assert 1 in s'.pool && Quiet(s');
    s' := StepTo(pool, s', ReaderAcquires(1));
    s' := StepTo(pool, s', ReaderFails);
  }

  lemma {:induction false} PassAll(pool: set<PacketId>, s: State, n: nat) returns (s': State)
    requires Reachable(pool, s) && Quiet(s) && s.reader == Disconnecting(n) && n <= MAX_STREAMS
    ensures Reachable(pool, s') && Quiet(s') && s'.reader == AwaitingStreams && s'.written == s.written
    ensures s'.flushedTo == s.flushedTo
    decreases MAX_STREAMS - n
  {
    s' := StepTo(pool, s, ReaderDisconnects(0));
    if n < MAX_STREAMS {
      s' := PassAll(pool, s', n + 1);
    }
  }

  lemma StopCleanly(pool: set<PacketId>, s: State) returns (s': State)
    requires (forall p: PacketId :: p in pool) && Reachable(pool, s) && Quiet(s) && s.reader == AwaitingStreams
    ensures Reachable(pool, s') && s'.phase == Stopped && !s'.late && s'.written == s.written
    ensures s'.flushedTo == s.flushedTo
  {
    ReachableInv(pool, s);
    assert Occupied(s) == {};
    s' := StepTo(pool, s, ReaderSeesStreamsStop);
    s' := StepTo(pool, s', WriterTakes);
    s' := StepTo(pool, s', ReaderSeesWriterStop);
  }

  /** There is a run in which a request is read, its response is written and flushed, its handler returns, and the
      processor stops with all its packets in the pool. */
  lemma RequestIsServed(pool: set<PacketId>)
    requires forall p: PacketId :: p in pool
    ensures exists steps :: Run(Init(pool), steps).Some? && ServedAndStopped(Run(Init(pool), steps).value)
  {
    var s := OpenFirst(pool);
    s := TakeAndWrite(pool, s);
    s := FlushAndWrite(pool, s);
    s := ReturnAndFail(pool, s);
    s := PassAll(pool, s, 0);
    s := StopCleanly(pool, s);
    var steps :| Run(Init(pool), steps) == Some(s);
    StoppedIsClean(pool, steps);
    assert ServedAndStopped(Run(Init(pool), steps).value);
  }

  ghost predicate ServedAndStopped(s: State) {
    s.phase == Stopped && s.flushedTo == s.written > 0 && forall p: PacketId :: p in s.pool
  }

  // ---- a flush may wait ----

  /** What becomes of a request stream that is flushed while the reader waits for a frame. The flush goes on, by
      getting one more packet, exactly if the pool has one. Then its handler can get it and return, the slot is
      free, and an opening frame with the same id opens a stream for the next request. If the pool is empty, the
      handler can do nothing, the stream stays in its slot, and that frame makes the reader leave its loop. */
  lemma FlushThenNextRequest(pool: set<PacketId>, steps: seq<Step>, i: nat)
    requires (forall p: PacketId :: p in pool) && Run(Init(pool), steps).Some?
    requires var s := Run(Init(pool), steps).value; Enabled(s, HandlerPuts(i, true))
    ensures var s := Run(Init(pool), steps).value;
            var t := Apply(s, HandlerPuts(i, true));
            && ((exists p: PacketId :: Enabled(t, HandlerGets(i, p))) <==> s.pool != {})
            && (forall p: PacketId :: p in s.pool && s.reader.Reading? ==> FreesSlot(t, i, p))
            && (s.pool == {} && s.reader.Reading? ==> HoldsSlot(t, i))
  {
    InitInv(pool);
    RunInv(Init(pool), steps);
    var s := Run(Init(pool), steps).value;
    StepInv(s, HandlerPuts(i, true));
    var t := Apply(s, HandlerPuts(i, true));
    FlushWaits(s, i);
    forall p: PacketId | p in s.pool && s.reader.Reading?
      ensures FreesSlot(t, i, p)
    {
      FlushGoesOn(t, i, p);
    }
    if s.reader.Reading? {
      FlushBlocks(t, i);
    }
  }

  /** The handler of slot i gets p and returns, and the next opening frame with id i opens a stream. */
  ghost predicate FreesSlot(t: State, i: nat, p: PacketId) {
    && Enabled(t, HandlerGets(i, p))
    && var u := Apply(t, HandlerGets(i, p));
       && Enabled(u, HandlerReturns(i, true))
       && var v := Apply(u, HandlerReturns(i, true));
          && i < |v.slots| && v.slots[i] == None && Enabled(v, ReaderReads(true, i))
          && var w := Apply(v, ReaderReads(true, i));
             w.reader == Acquiring && i < |w.slots| && w.slots[i].Some? && w.phase == t.phase
  }

  /** The handler of slot i cannot go on, and the next opening frame with id i ends the reader's loop. */
  ghost predicate HoldsSlot(t: State, i: nat) {
    && i < |t.slots| && t.slots[i].Some? && (forall p: PacketId :: !Enabled(t, HandlerGets(i, p)))
    && (forall success :: !Enabled(t, HandlerReturns(i, success)))
    && Enabled(t, ReaderReads(true, i))
    && var u := Apply(t, ReaderReads(true, i)); u.reader == Disconnecting(0) && u.phase == StopInitiated
  }

  lemma FlushWaits(s: State, i: nat)
    requires Enabled(s, HandlerPuts(i, true))
    ensures var t := Apply(s, HandlerPuts(i, true));
            && t.pool == s.pool && t.reader == s.reader && i < |t.slots| && t.slots[i].Some? && t.slots[i].value.awaits
            && ((exists p: PacketId :: Enabled(t, HandlerGets(i, p))) <==> s.pool != {})
  {
    var t := Apply(s, HandlerPuts(i, true));
    if s.pool != {} {
      var p :| p in s.pool;
      assert Enabled(t, HandlerGets(i, p));
    }
  }

  lemma FlushGoesOn(t: State, i: nat, p: PacketId)
    requires Inv(t) && t.reader.Reading? && i < |t.slots| && t.slots[i].Some? && t.slots[i].value.awaits && p in t.pool
    ensures FreesSlot(t, i, p)
  {
    var u := Apply(t, HandlerGets(i, p));
    var v := Apply(u, HandlerReturns(i, true));
    assert v.slots[i] == None && v.reader == t.reader;
  }

  lemma FlushBlocks(t: State, i: nat)
    requires Inv(t) && t.reader.Reading? && i < |t.slots| && t.slots[i].Some? && t.slots[i].value.awaits
    ensures t.pool == {} ==> HoldsSlot(t, i)
  {
  }

  /** There is a run in which a handler has put the last packet of its response and waits for a packet that is not
      there: the flush that the code wants never to wait does wait. */
  lemma FlushMayWait(pool: set<PacketId>)
    requires forall p: PacketId :: p in pool
    ensures exists steps :: Run(Init(pool), steps).Some? && WaitsAfterFlush(Run(Init(pool), steps).value, 0)
  {
    var s := FillingStarts(pool);
    s := FillAll(pool, s, 3);
    s := PutLast(pool, s);
    var steps :| Run(Init(pool), steps) == Some(s);
    assert WaitsAfterFlush(Run(Init(pool), steps).value, 0);
  }

  lemma PutLast(pool: set<PacketId>, s: State) returns (s': State)
    requires (forall p: PacketId :: p in pool) && Reachable(pool, s) && Filling(s, MAX_PACKETS - 1)
    ensures Reachable(pool, s') && WaitsAfterFlush(s', 0)
  {
    FlushWaits(s, 0);
    s' := StepTo(pool, s, HandlerPuts(0, true));
    assert s'.pool == {};
    ReachableInv(pool, s');
    FlushBlocks(s', 0);
  }

  /** The handler of slot i has flushed, there is no packet for it, and the next request with its id would end the
      connection. */
  ghost predicate WaitsAfterFlush(s: State, i: nat) {
    i < |s.slots| && s.slots[i].Some? && s.slots[i].value.flushed && s.pool == {} && HoldsSlot(s, i)
  }
}
