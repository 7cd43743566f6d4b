/** What mrpc_packet_stream.c writes and reads, as functions of bytes and frames: cutting a byte sequence into
    packets, and taking bytes out of a queue of packets. */
module Segments {
  import opened Wrappers
  import opened Packet

  // ---- writing: the packets a byte sequence is cut into ----

  /** The number of packets already handed over when n bytes have been written and none flushed: a full packet
      is kept until one more byte arrives. */
  function FullCount(n: nat): (m: nat)
    ensures m * MAX_PACKET_SIZE <= n <= (m + 1) * MAX_PACKET_SIZE
    ensures n > 0 ==> m * MAX_PACKET_SIZE < n
  {
    if n == 0 then 0 else (n - 1) / MAX_PACKET_SIZE
  }

  /** The first m full packets of the bytes b. */
  function FullPackets(id: Byte, b: seq<Byte>, m: nat): (fs: seq<Frame>)
    requires m * MAX_PACKET_SIZE <= |b|
    ensures |fs| == m
  {
    if m == 0 then []
    else
      FullPackets(id, b, m - 1) +
      [Frame(id, if m == 1 then Start else Middle, b[(m - 1) * MAX_PACKET_SIZE..m * MAX_PACKET_SIZE])]
  }

  /** The packets in the writer queue once the bytes b have been written. */
  function Emitted(id: Byte, b: seq<Byte>): seq<Frame> {
    FullPackets(id, b, FullCount(|b|))
  }

  /** The bytes that are still in the current write packet. */
  function Tail(b: seq<Byte>): seq<Byte> {
    b[FullCount(|b|) * MAX_PACKET_SIZE..]
  }

  function LastKind(m: nat): PacketType { if m == 0 then Single else End }

  /** The packets in the writer queue once the bytes b have been written and flushed. */
  function Flushed(id: Byte, b: seq<Byte>): seq<Frame> {
    Emitted(id, b) + [Frame(id, LastKind(FullCount(|b|)), Tail(b))]
  }

  function Payloads(fs: seq<Frame>): seq<Byte> {
    if fs == [] then [] else fs[0].payload + Payloads(fs[1..])
  }

  /** A complete packet sequence: one SINGLE packet, or START, any number of MIDDLE, END. */
  predicate Complete(fs: seq<Frame>) {
    && |fs| > 0
    && fs[0].kind == (if |fs| == 1 then Single else Start)
    && (forall k :: 0 < k < |fs| - 1 ==> fs[k].kind == Middle)
    && (|fs| > 1 ==> fs[|fs| - 1].kind == End)
  }

  /** A complete packet sequence of one request in which no packet could have been filled further. */
  predicate Canonical(id: Byte, fs: seq<Frame>) {
    && Complete(fs)
    && (forall k :: 0 <= k < |fs| ==> fs[k].id == id && WellSized(fs[k]))
    && (forall k :: 0 <= k < |fs| - 1 ==> |fs[k].payload| == MAX_PACKET_SIZE)
    && (|fs| > 1 ==> fs[|fs| - 1].payload != [])
  }

  // ---- reading: bytes out of a queue of packets ----

  /** The packet being read: its type and its unread bytes. */
  datatype Cursor = Cursor(kind: PacketType, unread: seq<Byte>)

  datatype Reader = Reader(cur: Option<Cursor>, queue: seq<Frame>)

  datatype ReadResult = ReadResult(ok: bool, data: seq<Byte>, state: Reader)

  /** Reading len bytes with a current packet. A queue that runs empty stands for the read timeout. */
  function Drain(c: Cursor, q: seq<Frame>, len: nat): ReadResult
    decreases |q|
  {
    if len <= |c.unread| then
      ReadResult(true, c.unread[..len], Reader(Some(Cursor(c.kind, c.unread[len..])), q))
    else
      var spent := Reader(Some(Cursor(c.kind, [])), q);
      if Closes(c.kind) || q == [] then ReadResult(false, c.unread, spent)
      else if Opens(q[0].kind) then ReadResult(false, c.unread, spent.(queue := q[1..]))
      else
        var r := Drain(Cursor(q[0].kind, q[0].payload), q[1..], len - |c.unread|);
        r.(data := c.unread + r.data)
  }

  /** mrpc_packet_stream_read: the first call fetches the first packet, which must open a sequence. */
  function ReadBytes(r: Reader, len: nat): ReadResult {
    match r.cur
    case Some(c) => Drain(c, r.queue, len)
    case None =>
      if r.queue == [] then ReadResult(false, [], r)
      else if !Opens(r.queue[0].kind) then ReadResult(false, [], r.(queue := r.queue[1..]))
      else Drain(Cursor(r.queue[0].kind, r.queue[0].payload), r.queue[1..], len)
  }

  /** The packets after the current one run up to one that closes the sequence. */
  predicate Terminated(c: Cursor, q: seq<Frame>)
    decreases |q|
  {
    Closes(c.kind) || (q != [] && !Opens(q[0].kind) && Terminated(Cursor(q[0].kind, q[0].payload), q[1..]))
  }

  /** The unread bytes of a terminated sequence. */
  function Remaining(c: Cursor, q: seq<Frame>): seq<Byte>
    requires Terminated(c, q)
    decreases |q|
  {
    if Closes(c.kind) then c.unread
    else c.unread + Remaining(Cursor(q[0].kind, q[0].payload), q[1..])
  }

  predicate Ready(r: Reader) { r.cur.Some? && Terminated(r.cur.value, r.queue) }

  function Left(r: Reader): seq<Byte>
    requires Ready(r)
  {
    Remaining(r.cur.value, r.queue)
  }

  /** Successive reads of the given lengths, each of which must succeed. */
  function ReadMany(r: Reader, lens: seq<nat>): Option<(seq<seq<Byte>>, Reader)>
    decreases |lens|
  {
    if lens == [] then Some(([], r))
    else
      var first := ReadBytes(r, lens[0]);
      if !first.ok then None
      else
        match ReadMany(first.state, lens[1..])
        case None => None
        case Some((datas, r')) => Some(([first.data] + datas, r'))
  }

  function Concat(datas: seq<seq<Byte>>): seq<Byte> {
    if datas == [] then [] else datas[0] + Concat(datas[1..])
  }

  function Sum(lens: seq<nat>): nat {
    if lens == [] then 0 else lens[0] + Sum(lens[1..])
  }

  // ---- segmentation ----

  lemma {:induction false} FullPacketsAt(id: Byte, b: seq<Byte>, m: nat, k: nat)
    requires m * MAX_PACKET_SIZE <= |b| && k < m
    ensures FullPackets(id, b, m)[k] ==
            Frame(id, if k == 0 then Start else Middle, b[k * MAX_PACKET_SIZE..(k + 1) * MAX_PACKET_SIZE])
  {
    if k < m - 1 {
      FullPacketsAt(id, b, m - 1, k);
    }
  }

  /** Packets already emitted do not depend on the bytes written later. */
  lemma {:induction false} FullPacketsExtend(id: Byte, b: seq<Byte>, c: seq<Byte>, m: nat)
    requires m * MAX_PACKET_SIZE <= |b|
    ensures FullPackets(id, b + c, m) == FullPackets(id, b, m)
  {
    if m > 0 {
      FullPacketsExtend(id, b, c, m - 1);
      var i, j := (m - 1) * MAX_PACKET_SIZE, m * MAX_PACKET_SIZE;
      assert (b + c)[i..j] == b[i..j];
    }
  }

  lemma {:induction false} PayloadsAppend(fs: seq<Frame>, f: Frame)
    ensures Payloads(fs + [f]) == Payloads(fs) + f.payload
  {
    if fs == [] {
      assert ([] + [f])[1..] == [];
    } else {
      PayloadsAppend(fs[1..], f);
      assert (fs + [f])[1..] == fs[1..] + [f];
    }
  }

  lemma {:induction false} FullPacketsPayload(id: Byte, b: seq<Byte>, m: nat)
    requires m * MAX_PACKET_SIZE <= |b|
    ensures Payloads(FullPackets(id, b, m)) == b[..m * MAX_PACKET_SIZE]
  {
    if m > 0 {
      FullPacketsPayload(id, b, m - 1);
      var i, j := (m - 1) * MAX_PACKET_SIZE, m * MAX_PACKET_SIZE;
      PayloadsAppend(FullPackets(id, b, m - 1), FullPackets(id, b, m)[m - 1]);
      assert b[..i] + b[i..j] == b[..j];
    }
  }

  /** Flushing emits a canonical sequence of max(1, ceil(n / 4095)) packets that carry exactly the bytes written. */
  lemma Segmentation(id: Byte, b: seq<Byte>)
    ensures Canonical(id, Flushed(id, b))
    ensures Payloads(Flushed(id, b)) == b
    ensures |Flushed(id, b)| == if b == [] then 1 else (|b| + MAX_PACKET_SIZE - 1) / MAX_PACKET_SIZE
  {
    var m, fs := FullCount(|b|), Flushed(id, b);
    forall k | 0 <= k < m
      ensures fs[k] == Frame(id, if k == 0 then Start else Middle, b[k * MAX_PACKET_SIZE..(k + 1) * MAX_PACKET_SIZE])
    {
      FullPacketsAt(id, b, m, k);
    }
    FullPacketsPayload(id, b, m);
    PayloadsAppend(Emitted(id, b), fs[m]);
    assert b[..m * MAX_PACKET_SIZE] + Tail(b) == b;
  }

  /** There is only one canonical sequence for given bytes, so however the writes were split the packets are
      the same. */
  lemma {:induction false} CanonicalIsUnique(id: Byte, fs: seq<Frame>)
    requires Canonical(id, fs)
    ensures fs == Flushed(id, Payloads(fs))
  {
    var b, m := Payloads(fs), |fs| - 1;
    var front := fs[..m];
    assert fs == front + [fs[m]];
    PayloadsAppend(front, fs[m]);
    FullPrefix(id, front);
    assert |b| == m * MAX_PACKET_SIZE + |fs[m].payload|;
    assert FullCount(|b|) == m;
    FullPacketsExtend(id, Payloads(front), fs[m].payload, m);
    assert Tail(b) == fs[m].payload;
  }

  lemma {:induction false} FullPrefix(id: Byte, fs: seq<Frame>)
    requires forall k :: 0 <= k < |fs| ==>
               fs[k].id == id && |fs[k].payload| == MAX_PACKET_SIZE && fs[k].kind == if k == 0 then Start else Middle
    ensures |Payloads(fs)| == |fs| * MAX_PACKET_SIZE
    ensures FullPackets(id, Payloads(fs), |fs|) == fs
  {
    if fs != [] {
      var m := |fs| - 1;
      var front := fs[..m];
      assert fs == front + [fs[m]];
      FullPrefix(id, front);
      PayloadsAppend(front, fs[m]);
      FullPacketsExtend(id, Payloads(front), fs[m].payload, m);
      var b := Payloads(fs);
      assert b[m * MAX_PACKET_SIZE..(m + 1) * MAX_PACKET_SIZE] == fs[m].payload;
      assert FullPackets(id, b, m) == front;
      assert fs[m] == Frame(id, if m + 1 == 1 then Start else Middle, fs[m].payload);
    }
  }

  /** A step of writing: the packets fs have been handed over, tail is in the current packet, b was written. */
  predicate Progress(id: Byte, b: seq<Byte>, fs: seq<Frame>, tail: seq<Byte>) {
    && |fs| * MAX_PACKET_SIZE <= |b| <= (|fs| + 1) * MAX_PACKET_SIZE
    && fs == FullPackets(id, b, |fs|)
    && tail == b[|fs| * MAX_PACKET_SIZE..]
  }

  lemma ProgressAppend(id: Byte, b: seq<Byte>, fs: seq<Frame>, tail: seq<Byte>, d: seq<Byte>)
    requires Progress(id, b, fs, tail) && |tail| + |d| <= MAX_PACKET_SIZE
    ensures Progress(id, b + d, fs, tail + d)
  {
    FullPacketsExtend(id, b, d, |fs|);
  }

  lemma ProgressHandOver(id: Byte, b: seq<Byte>, fs: seq<Frame>, tail: seq<Byte>)
    requires Progress(id, b, fs, tail) && |tail| == MAX_PACKET_SIZE
    ensures Progress(id, b, fs + [Frame(id, if fs == [] then Start else Middle, tail)], [])
  {
    var m := |fs|;
    assert b[m * MAX_PACKET_SIZE..(m + 1) * MAX_PACKET_SIZE] == tail;
  }

  lemma ProgressDone(id: Byte, b: seq<Byte>, fs: seq<Frame>, tail: seq<Byte>)
    requires |tail| <= MAX_PACKET_SIZE
    ensures Progress(id, b, fs, tail) && (fs == [] || tail != []) <==> fs == Emitted(id, b) && tail == Tail(b)
  {
    var m := FullCount(|b|);
    if Progress(id, b, fs, tail) && (fs == [] || tail != []) {
      assert |fs| == m;
    }
  }

  // ---- reassembly ----

  /** On a terminated sequence a read succeeds exactly when enough bytes remain; it returns the next bytes in
      order, and what it leaves behind is exactly the rest. A failing read has consumed all of it. */
  lemma {:induction false} DrainExact(c: Cursor, q: seq<Frame>, len: nat)
    requires Terminated(c, q)
    ensures var r, all := Drain(c, q, len), Remaining(c, q);
            && (r.ok <==> len <= |all|)
            && Ready(r.state)
            && r.data == (if r.ok then all[..len] else all)
            && Left(r.state) == (if r.ok then all[len..] else [])
    decreases |q|
  {
    if len > |c.unread| && !Closes(c.kind) {
      DrainExact(Cursor(q[0].kind, q[0].payload), q[1..], len - |c.unread|);
    }
  }

  /** Bytes are conserved by a read of any length, finished or not, whenever the queue holds no opening packet:
      what was read, then what is left, is what was there. */
  lemma {:induction false} DrainConserves(c: Cursor, q: seq<Frame>, len: nat)
    requires forall f :: f in q ==> !Opens(f.kind)
    ensures var r := Drain(c, q, len);
            && r.state.cur.Some?
            && r.data + r.state.cur.value.unread + Payloads(r.state.queue) == c.unread + Payloads(q)
            && |r.state.queue| <= |q| && r.state.queue == q[|q| - |r.state.queue|..]
    decreases |q|
  {
    if len > |c.unread| && !Closes(c.kind) && q != [] {
      DrainConserves(Cursor(q[0].kind, q[0].payload), q[1..], len - |c.unread|);
    }
  }

  /** How many packets of the queue a read can go on to, however much it asks for: up to one that closes the
      sequence, and not past one that opens another. */
  function Reach(c: Cursor, q: seq<Frame>): (n: nat)
    ensures n <= |q| && forall k :: 0 <= k < n ==> !Opens(q[k].kind) && (k + 1 < n ==> !Closes(q[k].kind))
    decreases |q|
  {
    if Closes(c.kind) || q == [] || Opens(q[0].kind) then 0
    else 1 + Reach(Cursor(q[0].kind, q[0].payload), q[1..])
  }

  /** The type of the last of them. */
  function ReachKind(c: Cursor, q: seq<Frame>): PacketType {
    if Reach(c, q) == 0 then c.kind else q[Reach(c, q) - 1].kind
  }

  lemma {:induction false} ReachEnds(c: Cursor, q: seq<Frame>)
    ensures Closes(ReachKind(c, q)) || Reach(c, q) == |q| || Opens(q[Reach(c, q)].kind)
    ensures Reach(c, q) > 0 ==> !Closes(c.kind)
    decreases |q|
  {
    if !Closes(c.kind) && q != [] && !Opens(q[0].kind) {
      ReachEnds(Cursor(q[0].kind, q[0].payload), q[1..]);
    }
  }

  /** What a read does on any queue, whoever filled it: it succeeds exactly if the packets it can go on to hold enough,
      and takes their bytes in order. If it fails it has taken all their bytes and those packets; an opening packet that
      stopped it is dropped as well, and nothing else. */
  lemma {:induction false} DrainAny(c: Cursor, q: seq<Frame>, len: nat)
    ensures var r, n := Drain(c, q, len), Reach(c, q);
            var all := c.unread + Payloads(q[..n]);
            && (r.ok <==> len <= |all|) && r.data == (if r.ok then all[..len] else all)
            && (!r.ok ==>
                 && r.state.cur == Some(Cursor(ReachKind(c, q), []))
                 && r.state.queue == if Closes(ReachKind(c, q)) || n == |q| then q[n..] else q[n + 1..])
    decreases |q|
  {
    var n := Reach(c, q);
    ReachEnds(c, q);
    if n == 0 {
      assert c.unread + Payloads(q[..0]) == c.unread;
    } else {
      var d := Cursor(q[0].kind, q[0].payload);
      DrainAny(d, q[1..], if len > |c.unread| then len - |c.unread| else 0);
      assert q[..n][1..] == q[1..][..n - 1];
      assert c.unread + Payloads(q[..n]) == c.unread + (d.unread + Payloads(q[1..][..n - 1]));
    }
  }

  /** The first read of a stream: without a packet it fails and leaves everything as it is; a packet that does not open
      a sequence is dropped, alone; an opening one becomes the current packet. */
  lemma FirstRead(q: seq<Frame>, len: nat)
    ensures var r := ReadBytes(Reader(None, q), len);
            if q == [] then r == ReadResult(false, [], Reader(None, []))
            else if q[0].kind == Middle || q[0].kind == End then r == ReadResult(false, [], Reader(None, q[1..]))
            else r == ReadBytes(Reader(Some(Cursor(q[0].kind, q[0].payload)), q[1..]), len)
  {
  }

  // ---- a sequence that has been closed ----

  /** The packets a read can go on to end with one that closes the sequence. */
  predicate ClosedOff(r: Reader) {
    match r.cur
    case Some(c) => Closes(ReachKind(c, r.queue))
    case None => r.queue != [] && Opens(r.queue[0].kind)
                 && Closes(ReachKind(Cursor(r.queue[0].kind, r.queue[0].payload), r.queue[1..]))
  }

  /** The bytes of the packets a read can go on to. */
  function Readable(r: Reader): seq<Byte> {
    match r.cur
    case Some(c) => c.unread + Payloads(r.queue[..Reach(c, r.queue)])
    case None =>
      if r.queue == [] || !Opens(r.queue[0].kind) then []
      else
        var c, q := Cursor(r.queue[0].kind, r.queue[0].payload), r.queue[1..];
        c.unread + Payloads(q[..Reach(c, q)])
  }

  lemma {:induction false} ReachPush(c: Cursor, q: seq<Frame>, f: Frame)
    requires Closes(ReachKind(c, q))
    ensures Reach(c, q + [f]) == Reach(c, q) && ReachKind(c, q + [f]) == ReachKind(c, q)
    decreases |q|
  {
    if !Closes(c.kind) && q != [] && !Opens(q[0].kind) {
      assert (q + [f])[1..] == q[1..] + [f];
      ReachPush(Cursor(q[0].kind, q[0].payload), q[1..], f);
    }
  }

  /** A packet pushed to a closed sequence can never be read. */
  lemma ClosedPush(r: Reader, f: Frame)
    requires ClosedOff(r)
    ensures var t := r.(queue := r.queue + [f]); ClosedOff(t) && Readable(t) == Readable(r)
  {
    var t := r.(queue := r.queue + [f]);
    match r.cur {
      case Some(c) =>
        ReachPush(c, r.queue, f);
        assert t.queue[..Reach(c, r.queue)] == r.queue[..Reach(c, r.queue)];
      case None =>
        var c, q := Cursor(r.queue[0].kind, r.queue[0].payload), r.queue[1..];
        ReachPush(c, q, f);
        assert t.queue[1..] == q + [f];
        assert (q + [f])[..Reach(c, q)] == q[..Reach(c, q)];
    }
  }

  lemma {:induction false} ReachClosing(c: Cursor, q: seq<Frame>, f: Frame)
    requires (forall g :: g in q ==> !Opens(g.kind)) && f.kind == End
    ensures Closes(ReachKind(c, q + [f]))
    decreases |q|
  {
    if !Closes(c.kind) && q != [] {
      assert (q + [f])[1..] == q[1..] + [f];
      ReachClosing(Cursor(q[0].kind, q[0].payload), q[1..], f);
    }
  }

  lemma {:induction false} DrainClosed(c: Cursor, q: seq<Frame>, len: nat)
    requires Closes(ReachKind(c, q))
    ensures var r := Drain(c, q, len);
            ClosedOff(r.state) && r.data + Readable(r.state) == Readable(Reader(Some(c), q))
    decreases |q|
  {
    var r := Drain(c, q, len);
    if len <= |c.unread| {
      var d := Cursor(c.kind, c.unread[len..]);
      SameReach(c, d, q);
      assert c.unread[..len] + (c.unread[len..] + Payloads(q[..Reach(c, q)])) == c.unread + Payloads(q[..Reach(c, q)]);
    } else if Closes(c.kind) {
      assert q[..0] == [];
      assert c.unread + ([] + []) == c.unread + [];
    } else {
      var d := Cursor(q[0].kind, q[0].payload);
      DrainClosed(d, q[1..], len - |c.unread|);
      var n := Reach(c, q);
      assert q[..n][1..] == q[1..][..n - 1];
      var rest := Drain(d, q[1..], len - |c.unread|);
      assert c.unread + rest.data + Readable(rest.state) == c.unread + (rest.data + Readable(rest.state));
    }
  }

  lemma SameReach(c: Cursor, d: Cursor, q: seq<Frame>)
    requires d.kind == c.kind
    ensures Reach(d, q) == Reach(c, q) && ReachKind(d, q) == ReachKind(c, q)
  {
  }

  /** Reads take what a closed sequence has, and it stays closed. */
  lemma ClosedRead(r: Reader, len: nat)
    requires ClosedOff(r)
    ensures var t := ReadBytes(r, len); ClosedOff(t.state) && t.data + Readable(t.state) == Readable(r)
  {
    match r.cur
    case Some(c) => DrainClosed(c, r.queue, len);
    case None => DrainClosed(Cursor(r.queue[0].kind, r.queue[0].payload), r.queue[1..], len);
  }

  /** A complete sequence at the head of the queue, once its first packet is fetched, is terminated and holds
      its concatenated payload, whatever follows it. */
  lemma {:induction false} CompleteIsReady(fs: seq<Frame>, k: nat, rest: seq<Frame>)
    requires Complete(fs) && k < |fs|
    ensures var c := Cursor(fs[k].kind, fs[k].payload);
            Terminated(c, fs[k + 1..] + rest) && Remaining(c, fs[k + 1..] + rest) == Payloads(fs[k..])
    decreases |fs| - k
  {
    if k + 1 < |fs| {
      CompleteIsReady(fs, k + 1, rest);
      assert (fs[k + 1..] + rest)[1..] == fs[k + 2..] + rest && fs[k..][1..] == fs[k + 1..];
    } else {
      assert fs[k..][1..] == [];
    }
  }

  /** Any partition of a prefix of a terminated sequence into reads returns that prefix, piece by piece, and any
      partition that asks for more fails. */
  lemma {:induction false} ReadManyExact(r: Reader, lens: seq<nat>)
    requires Ready(r)
    ensures ReadMany(r, lens).Some? <==> Sum(lens) <= |Left(r)|
    ensures ReadMany(r, lens).Some? ==>
              var (datas, r') := ReadMany(r, lens).value;
              && |datas| == |lens| && (forall k :: 0 <= k < |lens| ==> |datas[k]| == lens[k])
              && Concat(datas) == Left(r)[..Sum(lens)]
              && Ready(r') && Left(r') == Left(r)[Sum(lens)..]
    decreases |lens|
  {
    if lens != [] {
      DrainExact(r.cur.value, r.queue, lens[0]);
      var first := ReadBytes(r, lens[0]);
      if first.ok {
        ReadManyExact(first.state, lens[1..]);
        if ReadMany(first.state, lens[1..]).Some? {
          var n, s := lens[0], Sum(lens);
          assert Left(r)[..n] + Left(r)[n..][..s - n] == Left(r)[..s];
          assert Left(r)[n..][s - n..] == Left(r)[s..];
        }
      }
    }
  }

  /** The whole pipe: bytes written in any pieces and flushed are read back, in any pieces, in order and exactly
      once; asking for more than was written fails. */
  lemma WriteThenRead(id: Byte, b: seq<Byte>, rest: seq<Frame>, lens: seq<nat>)
    requires lens != []
    ensures var r := ReadMany(Reader(None, Flushed(id, b) + rest), lens);
            && (r.Some? <==> Sum(lens) <= |b|)
            && (r.Some? ==> Concat(r.value.0) == b[..Sum(lens)])
            && (r.Some? ==> forall k :: 0 <= k < |lens| ==> |r.value.0| == |lens| && |r.value.0[k]| == lens[k])
  {
    var fs := Flushed(id, b);
    Segmentation(id, b);
    CompleteIsReady(fs, 0, rest);
    assert fs[0..] == fs && (fs + rest)[1..] == fs[1..] + rest;
    var started := Reader(Some(Cursor(fs[0].kind, fs[0].payload)), fs[1..] + rest);
    assert ReadMany(Reader(None, fs + rest), lens) == ReadMany(started, lens);
    ReadManyExact(started, lens);
  }
}
