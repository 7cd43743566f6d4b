/** The packet stream object of mrpc_packet_stream.c: it cuts written bytes into packets for the shared writer
    queue and hands out the bytes of the packets pushed to its reader queue.

    A packet that is put into a queue is never touched again by the stream that put it there, so the queues hold
    packet values; the packets being written and read are objects, updated in place. Taking a packet from the pool
    is a fresh allocation, since a pool entry belongs to nobody else. Waiting, for the pool or for a queue, belongs
    to the protocol modules: here an empty reader queue means that the read timeout has passed. */
module PacketStream {
  import opened Wrappers
  import opened Packet
  import opened Segments

  lemma DrainSplit(c: Cursor, data: seq<Byte>, rest: seq<Byte>, q: seq<Frame>, len: nat)
    requires c.unread == data + rest && |data| <= len && (|data| == len || rest == [])
    ensures var r := Drain(Cursor(c.kind, rest), q, len - |data|); Drain(c, q, len) == r.(data := data + r.data)
  {
    if |data| == len {
      assert rest[..0] == [] && rest[0..] == rest;
    } else {
      assert c.unread == data;
      if !Closes(c.kind) && q != [] && !Opens(q[0].kind) {
        DrainNothing(Drain(Cursor(q[0].kind, q[0].payload), q[1..], len - |data|));
      }
    }
  }

  lemma DrainNothing(r: ReadResult)
    ensures r.(data := [] + r.data) == r
  {
    assert [] + r.data == r.data;
  }

  class Stream {
    var readerQueue: seq<Frame>
    var writerQueue: seq<Frame>
    var currentRead: PacketBuffer?
    var currentWrite: PacketBuffer?
    var requestId: Byte
    var released: multiset<Frame> // the packets that have been given back to the pool

    ghost var written: seq<Byte> // all bytes written since the stream was initialized
    ghost var emitted: seq<Frame> // the packets it has put into the writer queue since then
    ghost var flushed: bool

    // ---- writing ----

    ghost function WriteFrame(): set<object>
      reads this
    {
      if currentWrite == null then {} else {currentWrite, currentWrite.buf}
    }

    /** The stream may still be written: what it has put into the queue, and what the current packet holds, are
        those of the bytes written so far. */
    ghost predicate Writable()
      reads this, WriteFrame()
    {
      && !flushed
      && (currentWrite == null ==> written == [] && emitted == [])
      && (currentWrite != null ==>
            && currentWrite.Valid() && currentWrite.currPos == 0
            && emitted == Emitted(requestId, written)
            && currentWrite.View() == Frame(requestId, if emitted == [] then Start else Middle, Tail(written)))
    }

    method AcquirePacket(kind: PacketType) returns (p: PacketBuffer)
      ensures fresh(p) && fresh(p.buf) && p.Valid() && p.currPos == 0 && p.View() == Frame(requestId, kind, [])
    {
      p := new PacketBuffer();
      p.requestId := requestId;
      p.kind := kind;
    }

    /** The packets handed over are those of the bytes written, except for what the packet p holds. */
    ghost predicate Writing(p: PacketBuffer)
      reads this, p, p.buf
    {
      && p.Valid() && p.currPos == 0
      && Progress(requestId, written, emitted, p.Payload())
      && p.requestId == requestId && p.kind == if emitted == [] then Start else Middle
    }

    method Write(data: seq<Byte>)
      requires Writable()
      modifies this`currentWrite, this`writerQueue, this`emitted, this`written, WriteFrame()
      ensures Writable() && currentWrite != null
      ensures written == old(written) + data
      ensures old(emitted) <= emitted && writerQueue == old(writerQueue) + emitted[|old(emitted)|..]
    {
      if currentWrite == null {
        currentWrite := AcquirePacket(Start);
      }
      ProgressDone(requestId, written, emitted, currentWrite.Payload());
      currentWrite := WriteAll(data, currentWrite);
      ProgressDone(requestId, written, emitted, currentWrite.Payload());
    }

    /** The loop of a write, entered with a current packet. */
    method WriteAll(data: seq<Byte>, first: PacketBuffer) returns (current: PacketBuffer)
      requires Writing(first) && (emitted == [] || first.size > 0 || data != [])
      modifies this`writerQueue, this`emitted, this`written, first, first.buf
      ensures Writing(current) && (emitted == [] || current.size > 0)
      ensures written == old(written) + data
      ensures old(emitted) <= emitted && writerQueue == old(writerQueue) + emitted[|old(emitted)|..]
    {
      var left := data;
      current := first;
      while left != []
        invariant written + left == old(written) + data
        invariant Writing(current) && (emitted == [] || current.size > 0 || left != [])
        invariant current == first || (fresh(current) && fresh(current.buf))
        invariant old(emitted) <= emitted && writerQueue == old(writerQueue) + emitted[|old(emitted)|..]
        decreases |left|, current.size
      {
        left, current := WritePart(left, current);
      }
    }

    /** One round of the loop: fill the packet, and replace it if bytes are left. */
    method WritePart(data: seq<Byte>, current: PacketBuffer) returns (left: seq<Byte>, next: PacketBuffer)
      requires data != [] && Writing(current)
      modifies this`writerQueue, this`emitted, this`written, current, current.buf
      ensures written + left == old(written) + data && Writing(next)
      ensures next == current || (fresh(next) && fresh(next.buf))
      ensures |left| < |data| || (left == data && next.size < old(current.size))
      ensures next.size > 0 || left != []
      ensures old(emitted) <= emitted && writerQueue == old(writerQueue) + emitted[|old(emitted)|..]
    {
      ghost var tail := current.Payload();
      var n := current.WriteData(data);
      ProgressAppend(requestId, written, emitted, tail, data[..n]);
      written := written + data[..n];
      left, next := data[n..], current;
      if left != [] {
        ProgressHandOver(requestId, written, emitted, current.Payload());
        emitted := emitted + [current.View()];
        writerQueue := writerQueue + [Frame(current.requestId, current.kind, current.buf[..current.size])];
        next := AcquirePacket(Middle);
      }
    }

    /** Turns the current packet into the last one of the sequence and hands it over; the packet acquired after
        it only marks that the stream cannot be written any more. */
    method Flush()
      requires Writable() && currentWrite != null
      modifies this`currentWrite, this`writerQueue, this`emitted, this`flushed, WriteFrame()
      ensures flushed && currentWrite != null && currentWrite.Valid()
      ensures emitted == Flushed(requestId, written)
      ensures old(emitted) <= emitted && writerQueue == old(writerQueue) + emitted[|old(emitted)|..]
    {
      currentWrite.kind := if currentWrite.kind == Start then Single else End;
      emitted := emitted + [currentWrite.View()];
      writerQueue := writerQueue + [Frame(currentWrite.requestId, currentWrite.kind,
        currentWrite.buf[..currentWrite.size])];
      currentWrite := AcquirePacket(End);
      flushed := true;
    }

    // ---- reading ----

    ghost function ReadFrame(): set<object>
      reads this
    {
      if currentRead == null then {} else {currentRead, currentRead.buf}
    }

    ghost predicate Readable()
      reads this, ReadFrame()
    {
      && (forall f :: f in readerQueue ==> WellSized(f))
      && (currentRead != null ==> currentRead.Valid())
    }

    /** The unread part of what has been pushed to the stream. */
    ghost function Source(): Reader
      requires Readable()
      reads this, ReadFrame()
    {
      Reader(if currentRead == null then None else Some(Cursor(currentRead.kind, currentRead.Unread())), readerQueue)
    }

    /** The packets the stream holds for reading. */
    ghost function Held(): multiset<Frame>
      requires Readable()
      reads this, ReadFrame()
    {
      multiset(readerQueue) + if currentRead == null then multiset{} else multiset{currentRead.View()}
    }

    method Push(f: Frame)
      requires Readable() && WellSized(f)
      modifies this`readerQueue
      ensures Readable()
      ensures Source() == old(Source()).(queue := old(readerQueue) + [f])
    {
      readerQueue := readerQueue + [f];
    }

    /** Unblocks a reader by pushing an empty closing packet. */
    method Disconnect()
      requires Readable()
      modifies this`readerQueue
      ensures Readable()
      ensures Source() == old(Source()).(queue := old(readerQueue) + [Frame(requestId, End, [])])
    {
      Push(Frame(requestId, End, []));
    }

    lemma HeadOut(q: seq<Frame>)
      requires q != []
      ensures multiset(q) == multiset{q[0]} + multiset(q[1..])
    {
      assert q == [q[0]] + q[1..];
    }

    /** Reads len bytes. Every packet that leaves the stream is released exactly once. */
    method Read(len: nat) returns (ok: bool, data: seq<Byte>)
      requires Readable()
      modifies this`currentRead, this`readerQueue, this`released, ReadFrame()
      ensures Readable()
      ensures ReadBytes(old(Source()), len) == ReadResult(ok, data, Source())
      ensures released + Held() == old(released) + old(Held())
    {
      if currentRead == null {
        if readerQueue == [] {
          return false, [];
        }
        var first := readerQueue[0];
        HeadOut(readerQueue);
        readerQueue := readerQueue[1..];
        if !Opens(first.kind) {
          released := released + multiset{first};
          return false, [];
        }
        currentRead := new PacketBuffer.Holding(first);
      }
      ok, data := ReadLoop(len);
    }

    /** The loop of a read, entered with a current packet. */
    method ReadLoop(len: nat) returns (ok: bool, data: seq<Byte>)
      requires Readable() && currentRead != null
      modifies this`currentRead, this`readerQueue, this`released, ReadFrame()
      ensures Readable()
      ensures old(Todo(len)) == ReadResult(ok, data, Source())
      ensures released + Held() == old(released) + old(Held())
    {
      var left: nat := len;
      ghost var whole := Todo(len);
      data, ok := [], true;
      assert Reading(left, data, whole);
      while left > 0
        invariant Reading(left, data, whole) && ok
        invariant ReadFrame() <= old(ReadFrame()) || fresh(ReadFrame())
        invariant released + Held() == old(released) + old(Held())
        decreases |readerQueue|, left
      {
        ok, left, data := ReadRound(left, data, whole);
        if !ok {
          return;
        }
      }
    }

    /** A read that has data so far and wants left more bytes is on its way to the result whole. */
    ghost predicate Reading(left: nat, data: seq<Byte>, whole: ReadResult)
      reads this, ReadFrame()
    {
      Readable() && currentRead != null && whole == Todo(left).(data := data + Todo(left).data)
    }

    method ReadRound(want: nat, sofar: seq<Byte>, ghost whole: ReadResult) returns (ok: bool, left: nat,
      data: seq<Byte>)
      requires Reading(want, sofar, whole) && want > 0
      modifies this`currentRead, this`readerQueue, this`released, ReadFrame()
      ensures if ok then Reading(left, data, whole) else Readable() && whole == ReadResult(false, data, Source())
      ensures ReadFrame() <= old(ReadFrame()) || fresh(ReadFrame())
      ensures ok ==> |readerQueue| < |old(readerQueue)| || (readerQueue == old(readerQueue) && left == 0)
      ensures released + Held() == old(released) + old(Held())
    {
      var bytes;
      ok, bytes := ReadPart(want);
      data, left := sofar + bytes, want - |bytes|;
      if ok {
        assert sofar + (bytes + Todo(left).data) == data + Todo(left).data;
      }
    }

    /** What is left to do for a read of len more bytes. */
    ghost function Todo(len: nat): ReadResult
      requires Readable() && currentRead != null
      reads this, ReadFrame()
    {
      Drain(Source().cur.value, readerQueue, len)
    }

    /** One round of the loop: empty the packet, and replace it if bytes are still wanted. */
    method ReadPart(len: nat) returns (ok: bool, data: seq<Byte>)
      requires Readable() && currentRead != null && len > 0
      modifies this`currentRead, this`readerQueue, this`released, ReadFrame()
      ensures Readable() && currentRead != null && |data| <= len
      ensures ReadFrame() <= old(ReadFrame()) || fresh(ReadFrame())
      ensures if ok then old(Todo(len)) == Todo(len - |data|).(data := data + Todo(len - |data|).data)
              else old(Todo(len)) == ReadResult(false, data, Source())
      ensures ok ==> |readerQueue| < |old(readerQueue)| || (readerQueue == old(readerQueue) && |data| == len)
      ensures released + Held() == old(released) + old(Held())
    {
      ghost var before := Source().cur.value;
      data := currentRead.ReadData(len);
      DrainSplit(before, data, currentRead.Unread(), readerQueue, len);
      ok := true;
      if |data| < len {
        ok := NextPacket(len - |data|);
        assert data + [] == data;
      }
    }

    /** Replaces the current packet, read to its end, by the next one. */
    method NextPacket(ghost len: nat) returns (ok: bool)
      requires Readable() && currentRead != null && currentRead.Unread() == [] && len > 0
      modifies this`currentRead, this`readerQueue, this`released
      ensures Readable() && currentRead != null
      ensures ReadFrame() == old(ReadFrame()) || fresh(ReadFrame())
      ensures if ok then old(Todo(len)) == Todo(len) else old(Todo(len)) == ReadResult(false, [], Source())
      ensures ok ==> |readerQueue| < |old(readerQueue)|
      ensures released + Held() == old(released) + old(Held())
    {
      if Closes(currentRead.kind) || readerQueue == [] {
        return false;
      }
      var f := readerQueue[0];
      HeadOut(readerQueue);
      readerQueue := readerQueue[1..];
      if Opens(f.kind) {
        released := released + multiset{f};
        return false;
      }
      released := released + multiset{Frame(currentRead.requestId, currentRead.kind,
        currentRead.buf[..currentRead.size])};
      currentRead := new PacketBuffer.Holding(f);
      DrainNothing(Todo(len));
      ok := true;
    }

    // ---- the life of a stream ----

    method Initialize(id: Byte)
      requires currentRead == null && currentWrite == null && readerQueue == [] && requestId == 0
      modifies this`requestId, this`written, this`emitted, this`flushed
      ensures requestId == id && Writable() && Readable()
      ensures Source() == Reader(None, [])
    {
      requestId, written, emitted, flushed := id, [], [], false;
    }

    ghost predicate WriteValid()
      reads this, WriteFrame()
    {
      currentWrite != null ==> currentWrite.Valid()
    }

    /** The packet the stream writes. */
    ghost function HeldForWriting(): multiset<Frame>
      requires WriteValid()
      reads this, WriteFrame()
    {
      if currentWrite == null then multiset{} else multiset{currentWrite.View()}
    }

    method ReleaseCurrentWrite()
      requires WriteValid()
      modifies this`currentWrite, this`released
      ensures currentWrite == null && released == old(released) + old(HeldForWriting())
    {
      if currentWrite != null {
        released := released
          + multiset{Frame(currentWrite.requestId, currentWrite.kind, currentWrite.buf[..currentWrite.size])};
        currentWrite := null;
      }
    }

    method ReleaseCurrentRead()
      requires Readable()
      modifies this`currentRead, this`released
      ensures currentRead == null && released + multiset(readerQueue) == old(released) + old(Held())
    {
      if currentRead != null {
        released := released
          + multiset{Frame(currentRead.requestId, currentRead.kind, currentRead.buf[..currentRead.size])};
        currentRead := null;
      }
    }

    method ClearReaderQueue()
      modifies this`readerQueue, this`released
      ensures readerQueue == [] && released == old(released) + multiset(old(readerQueue))
    {
      while readerQueue != []
        invariant released + multiset(readerQueue) == old(released) + multiset(old(readerQueue))
        decreases |readerQueue|
      {
        HeadOut(readerQueue);
        released := released + multiset{readerQueue[0]};
        readerQueue := readerQueue[1..];
      }
    }

    /** Gives back every packet the stream holds, so that it can be initialized for another request. */
    method Shutdown()
      requires Readable() && WriteValid()
      modifies this`currentRead, this`currentWrite, this`readerQueue, this`requestId, this`released
      ensures currentRead == null && currentWrite == null && readerQueue == [] && requestId == 0
      ensures released == old(released) + old(Held()) + old(HeldForWriting())
    {
      ReleaseCurrentWrite();
      ReleaseCurrentRead();
      ClearReaderQueue();
      requestId := 0;
    }
  }
}
