/** The request streams of mrpc_client_stream_processor.c: a pool of up to 256 streams, each with a request id of its
    own for as long as it exists, and the table of those in use. A caller that finds the pool exhausted would wait;
    here it is asked not to come then. */
module ClientStreams {
  import opened Bitmap

  const MAX_REQUEST_STREAMS_CNT: nat := 0x100

  class RequestStream {
    const requestId: nat

    constructor (requestId: nat)
      ensures this.requestId == requestId
    {
      this.requestId := requestId;
    }
  }

  /** How many slots are occupied. */
  function Occupied(slots: seq<RequestStream?>): (n: nat)
    ensures n <= |slots|
  {
    if slots == [] then 0
    else (if slots[|slots| - 1] != null then 1 else 0) + Occupied(slots[..|slots| - 1])
  }

  lemma {:induction false} OccupiedUpdate(slots: seq<RequestStream?>, i: nat, s: RequestStream?)
    requires i < |slots|
    ensures Occupied(slots[i := s]) ==
            Occupied(slots) - (if slots[i] != null then 1 else 0) + (if s != null then 1 else 0)
  {
    var last := |slots| - 1;
    if i == last {
      assert slots[i := s][..last] == slots[..last];
    } else {
      assert slots[i := s][..last] == slots[..last][i := s];
      OccupiedUpdate(slots[..last], i, s);
    }
  }

  lemma {:induction false} OccupiedZero(slots: seq<RequestStream?>)
    ensures Occupied(slots) == 0 <==> forall i :: 0 <= i < |slots| ==> slots[i] == null
  {
    if slots != [] {
      OccupiedZero(slots[..|slots| - 1]);
    }
  }

  /** The slot of an id holds the stream with that id; every id of a free stream has an empty slot; ids of free
      streams differ; the ids taken are those of the streams in use and of the free ones. */
  ghost predicate Distinct(slots: seq<RequestStream?>, free: seq<RequestStream>, taken: set<nat>) {
    && |slots| == MAX_REQUEST_STREAMS_CNT && (forall n :: n in taken ==> n < |slots|)
    && (forall i :: 0 <= i < |slots| && slots[i] != null ==> slots[i].requestId == i && i in taken)
    && (forall i :: 0 <= i < |free| ==> free[i].requestId in taken && slots[free[i].requestId] == null)
    && (forall i, j :: 0 <= i < j < |free| ==> free[i].requestId != free[j].requestId)
    && |taken| == Occupied(slots) + |free|
  }

  lemma DistinctEmpty(slots: seq<RequestStream?>)
    requires |slots| == MAX_REQUEST_STREAMS_CNT && forall i :: 0 <= i < |slots| ==> slots[i] == null
    ensures Distinct(slots, [], {}) && Occupied(slots) == 0
  {
    OccupiedZero(slots);
  }

  /** A stream out of the pool enters its slot. */
  lemma DistinctEnter(slots: seq<RequestStream?>, free: seq<RequestStream>, taken: set<nat>)
    requires Distinct(slots, free, taken) && free != []
    ensures var s := free[|free| - 1];
            s.requestId < |slots| && slots[s.requestId] == null
            && Distinct(slots[s.requestId := s], free[..|free| - 1], taken)
            && Occupied(slots[s.requestId := s]) == Occupied(slots) + 1
  {
    var s := free[|free| - 1];
    OccupiedUpdate(slots, s.requestId, s);
  }

  /** A stream just created enters its slot. */
  lemma DistinctNew(slots: seq<RequestStream?>, taken: set<nat>, s: RequestStream)
    requires Distinct(slots, [], taken) && s.requestId < MAX_REQUEST_STREAMS_CNT && s.requestId !in taken
    ensures slots[s.requestId] == null && Distinct(slots[s.requestId := s], [], taken + {s.requestId})
    ensures Occupied(slots[s.requestId := s]) == Occupied(slots) + 1
  {
    OccupiedUpdate(slots, s.requestId, s);
  }

  lemma DistinctLeave(slots: seq<RequestStream?>, free: seq<RequestStream>, taken: set<nat>, s: RequestStream)
    requires Distinct(slots, free, taken) && s.requestId < |slots| && slots[s.requestId] == s
    ensures Distinct(slots[s.requestId := null], free + [s], taken)
    ensures Occupied(slots[s.requestId := null]) == Occupied(slots) - 1
  {
    OccupiedUpdate(slots, s.requestId, null);
  }

  class Streams {
    const ids: Bits
    const slots: array<RequestStream?>
    var free: seq<RequestStream>  // streams in the pool
    var activeCnt: int
    var stopEvent: bool

    ghost predicate Apart() {
      (slots as object) != ids.words
    }

    ghost predicate Valid()
      reads this, slots, ids, ids.words
    {
      && Apart() && ids.Valid() && ids.size == MAX_REQUEST_STREAMS_CNT && Distinct(slots[..], free, ids.Numbers())
      && activeCnt == Occupied(slots[..]) && (stopEvent <==> activeCnt == 0)
    }

    constructor ()
      ensures Valid() && fresh(slots) && fresh(ids) && fresh(ids.words)
      ensures forall i :: 0 <= i < slots.Length ==> slots[i] == null
    {
      ids := new Bits(MAX_REQUEST_STREAMS_CNT);
      slots := new RequestStream?[MAX_REQUEST_STREAMS_CNT](_ => null);
      free, activeCnt, stopEvent := [], 0, true;
      new;
      DistinctEmpty(slots[..]);
    }

    /** Creates a stream for the pool; there is always an id for it. */
    method CreateRequestStream() returns (s: RequestStream)
      requires Apart() && ids.Valid() && ids.size == MAX_REQUEST_STREAMS_CNT
               && |ids.Numbers()| < MAX_REQUEST_STREAMS_CNT
      modifies ids, ids.words
      ensures ids.Valid() && s.requestId < MAX_REQUEST_STREAMS_CNT && s.requestId !in old(ids.Numbers())
      ensures ids.Numbers() == old(ids.Numbers()) + {s.requestId} && fresh(s)
    {
      var id := ids.AcquireBit();
      assert 0 <= id < MAX_REQUEST_STREAMS_CNT;
      s := new RequestStream(id);
    }

    /** Takes a free stream, or creates one, and enters it under its id: the slot is always empty. */
    method AcquireRequestStream() returns (s: RequestStream)
      requires Valid() && activeCnt < MAX_REQUEST_STREAMS_CNT
      modifies this, slots, ids, ids.words
      ensures Valid() && s.requestId < slots.Length && old(slots[..])[s.requestId] == null
      ensures slots[..] == old(slots[..])[s.requestId := s] && activeCnt == old(activeCnt) + 1
    {
      s := PoolAcquire();
      assert slots[s.requestId] == null;
      Enter(s.requestId, s);
      activeCnt := activeCnt + 1;
      if activeCnt == 1 {
        stopEvent := false;
      }
    }

    method Enter(id: nat, s: RequestStream?)
      requires id < slots.Length
      modifies slots
      ensures slots[..] == old(slots[..])[id := s]
    {
      slots[id] := s;
    }

    method PoolAcquire() returns (s: RequestStream)
      requires Apart() && ids.Valid() && ids.size == MAX_REQUEST_STREAMS_CNT && Distinct(slots[..], free, ids.Numbers())
      requires Occupied(slots[..]) < MAX_REQUEST_STREAMS_CNT
      modifies `free, ids, ids.words
      ensures ids.Valid() && s.requestId < slots.Length && slots[s.requestId] == null && slots[..] == old(slots[..])
      ensures Distinct(slots[..][s.requestId := s], free, ids.Numbers())
      ensures Occupied(slots[..][s.requestId := s]) == Occupied(slots[..]) + 1
    {
      ghost var taken := ids.Numbers();
      if free != [] {
        DistinctEnter(slots[..], free, taken);
        s := free[|free| - 1];
        free := free[..|free| - 1];
      } else {
        s := CreateRequestStream();
        DistinctNew(slots[..], taken, s);
      }
    }

    /** Gives a stream back. The event of the stopper is set when it was the last one in use. */
    method ReleaseRequestStream(s: RequestStream)
      requires Valid() && s.requestId < slots.Length && slots[s.requestId] == s
      modifies this, slots
      ensures Valid() && slots[..] == old(slots[..])[s.requestId := null] && activeCnt == old(activeCnt) - 1
      ensures stopEvent <==> forall i :: 0 <= i < slots.Length ==> slots[i] == null
    {
      DistinctLeave(slots[..], free, ids.Numbers(), s);
      Enter(s.requestId, null);
      free := free + [s];
      activeCnt := activeCnt - 1;
      if activeCnt == 0 {
        stopEvent := true;
      }
      OccupiedZero(slots[..]);
    }
  }
}
