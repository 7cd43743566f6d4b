/** The distributed client of mrpc_distributed_client.c with its client wrappers: a registry of clients, each owning
    128 points of the consistent hash. It is changed by one fiber, which blocks while it stops a client; meanwhile
    other fibers acquire and release clients. Every step is the code between two blocking calls. */
module Registry {
  import opened Arithmetic
  import opened Wrappers
  import opened Ring

  const FACTOR: nat := 128  // 1 << CONSISTENT_HASH_UNIFORM_FACTOR_ORDER

  type ClientKey = k: nat | k < 0x1_0000_0000_0000_0000

  /** A client wrapper, by its number in the pool. */
  type Wrapper = nat

  /** max clients at a time, the width of a hash bucket, the hash of one word and the hash of a client key. */
  datatype Config = Config(max: nat, width: nat, hash: Hash, keyHash: ClientKey -> Key)

  function PointsOf(c: Config, key: ClientKey): (ps: seq<Key>)
    ensures |ps| == FACTOR
  {
    Points(c.hash, c.keyHash(key), FACTOR)
  }

  /** Two client keys have no point in common. */
  ghost predicate Apart(c: Config, a: ClientKey, b: ClientKey) {
    forall p :: p in PointsOf(c, a) ==> p !in PointsOf(c, b)
  }

  /** A client in the ring. */
  datatype Registration = Registration(key: ClientKey, wrapper: Wrapper)

  datatype Why = Rejected | Removed | Cleared(final: bool)

  /** What the registry's own fiber is about: waiting for a message, waiting for a client to stop, taking the next
      client out of the dictionary after the ring has been emptied, or finished. */
  datatype Fiber = Idle | Stopping(wrapper: Wrapper, why: Why) | Clearing(final: bool) | Finished

  datatype State = State(
    dict: map<ClientKey, Wrapper>, ring: seq<Entry>, pool: set<Wrapper>, cnt: int, fiber: Fiber,
    started: set<Wrapper>,     // wrappers with a stream connector
    refs: seq<int>,            // ref_cnt of each wrapper
    events: seq<bool>,         // stop_event of each wrapper
    held: multiset<Wrapper>,   // the clients other fibers have acquired and not released
    order: seq<Registration>,  // history: the clients in the ring, in the order in which they were added
    ok: bool,                  // no assertion has failed and the wrapper pool has not blocked
    gap: bool)                 // a lookup has run into the last assertion of get_entry

  datatype Step =
    | Add(key: ClientKey, wrapper: Wrapper)
    | RemoveClient(key: ClientKey)
    | RemoveAllClients(final: bool)
    | TakeNext(key: ClientKey)
    | AllTaken
    | Stopped
    | Acquire(request: Key)
    | Release(wrapper: Wrapper)

  function Init(c: Config): State {
    State(map[], [], UpTo(c.max), 0, Idle, {}, seq(c.max, _ => 0), seq(c.max, _ => false), multiset{}, [], true, false)
  }

  /** The registrations of all clients but one. */
  function Others(order: seq<Registration>, key: ClientKey): seq<Registration> {
    if order == [] then []
    else
      var last := order[|order| - 1];
      Others(order[..|order| - 1], key) + if last.key == key then [] else [last]
  }

  // ---- the steps ----

  /** add_client up to its end or to the wait for the rejected client to stop. The pool gives any free wrapper; it
      would block if it had none, which counts as a failure. */
  function AddClient(s: State, c: Config, key: ClientKey, w: Wrapper): State {
    if s.cnt == c.max then s
    else if w !in s.pool || w >= |s.refs| || w >= |s.events| then s.(ok := false)
    else
      var t := s.(pool := s.pool - {w}, started := s.started + {w}, events := s.events[w := true],
                  ok := s.ok && 0 <= s.cnt <= c.max && w !in s.started && s.refs[w] == 0);
      if key in s.dict then t.(fiber := Stopping(w, Rejected))
      else
        t.(dict := s.dict[key := w], ring := InsertAll(s.ring, PointsOf(c, key), w), cnt := s.cnt + 1,
           order := s.order + [Registration(key, w)])
  }

  /** remove_client up to its wait for the client to stop. */
  function DropClient(s: State, c: Config, key: ClientKey): State {
    if key !in s.dict then s
    else
      s.(dict := s.dict - {key}, ring := RemoveAll(s.ring, PointsOf(c, key)), fiber := Stopping(s.dict[key], Removed),
         order := Others(s.order, key),
         ok := s.ok && 0 < s.cnt <= c.max && s.ring != [] && AllFound(s.ring, PointsOf(c, key))
               && s.dict[key] in s.started)
  }

  /** remove_all_clients empties the ring before it stops the first client. */
  function StartClearing(s: State, final: bool): State {
    s.(ring := [], order := [], fiber := Clearing(final))
  }

  /** The dictionary hands out one of its clients, in whatever order, to be stopped. */
  function TakeClient(s: State, c: Config, key: ClientKey): State
    requires s.fiber.Clearing? && key in s.dict
  {
    s.(dict := s.dict - {key}, fiber := Stopping(s.dict[key], Cleared(s.fiber.final)),
       ok := s.ok && 0 < s.cnt <= c.max && s.dict[key] in s.started)
  }

  function EndClearing(s: State): State
    requires s.fiber.Clearing?
  {
    s.(ok := s.ok && s.cnt == 0, fiber := if s.fiber.final then Finished else Idle)
  }

  /** A client has stopped and its event is set: its wrapper goes back to the pool. */
  function EndStopping(s: State): State
    requires s.fiber.Stopping?
  {
    var w := s.fiber.wrapper;
    s.(pool := s.pool + {w}, started := s.started - {w}, ok := s.ok && w < |s.refs| && s.refs[w] == 0,
       cnt := if s.fiber.why.Rejected? then s.cnt else s.cnt - 1,
       fiber := if s.fiber.why.Cleared? then Clearing(s.fiber.why.final) else Idle)
  }

  /** One try of acquire_client; with an empty ring it has nothing to offer. */
  function AcquireClient(s: State, c: Config, request: Key): State
    requires c.width > 0
  {
    if s.ring == [] then s
    else match Answer(s.ring, c.width, c.hash(0, request))
      case None => s.(gap := true)
      case Some(w) =>
        if w >= |s.refs| || w >= |s.events| then s.(ok := false)
        else
          s.(refs := s.refs[w := s.refs[w] + 1], held := s.held + multiset{w},
             events := if s.refs[w] + 1 == 1 then s.events[w := false] else s.events,
             ok := s.ok && w in s.started && s.refs[w] >= 0)
  }

  function ReleaseClient(s: State, w: Wrapper): State {
    if w >= |s.refs| || w >= |s.events| then s.(ok := false)
    else
      s.(refs := s.refs[w := s.refs[w] - 1], held := s.held - multiset{w},
         events := if s.refs[w] - 1 == 0 then s.events[w := true] else s.events,
         ok := s.ok && w in s.started && s.refs[w] > 0)
  }

  /** Messages are taken by an idle fiber; the wait for a stopping client ends only once its event is set; only who
      has acquired a client releases it. The wrapper a client gets is any one the pool has. */
  predicate Enabled(c: Config, s: State, step: Step) {
    match step
    case Add(_, w) => s.fiber.Idle? && (s.pool != {} ==> w in s.pool)
    case RemoveClient(_) => s.fiber.Idle?
    case RemoveAllClients(_) => s.fiber.Idle?
    case TakeNext(key) => s.fiber.Clearing? && key in s.dict
    case AllTaken => s.fiber.Clearing? && s.dict == map[]
    case Stopped => s.fiber.Stopping? && s.fiber.wrapper < |s.events| && s.events[s.fiber.wrapper]
    case Acquire(_) => c.width > 0
    case Release(w) => w in s.held
  }

  function Apply(c: Config, s: State, step: Step): State
    requires Enabled(c, s, step)
  {
    match step
    case Add(key, w) => AddClient(s, c, key, w)
    case RemoveClient(key) => DropClient(s, c, key)
    case RemoveAllClients(final) => StartClearing(s, final)
    case TakeNext(key) => TakeClient(s, c, key)
    case AllTaken => EndClearing(s)
    case Stopped => EndStopping(s)
    case Acquire(request) => AcquireClient(s, c, request)
    case Release(w) => ReleaseClient(s, w)
  }

  ghost predicate Run(c: Config, run: seq<State>, steps: seq<Step>) {
    && |run| == |steps| + 1 && run[0] == Init(c)
    && forall i :: 0 <= i < |steps| ==> Enabled(c, run[i], steps[i]) && run[i + 1] == Apply(c, run[i], steps[i])
  }

  /** No client that was added later than the one with this key, and is still registered, shares a point with it. */
  ghost predicate GoodRemoval(c: Config, order: seq<Registration>, key: ClientKey) {
    forall i, j :: 0 <= i < j < |order| && order[i].key == key ==> Apart(c, key, order[j].key)
  }

  ghost predicate GoodStep(c: Config, s: State, step: Step) {
    step.RemoveClient? ==> GoodRemoval(c, s.order, step.key)
  }

  ghost predicate Good(c: Config, run: seq<State>, steps: seq<Step>) {
    |run| == |steps| + 1 && forall i :: 0 <= i < |steps| ==> GoodStep(c, run[i], steps[i])
  }

  // ---- the invariant ----

  function InHand(f: Fiber): nat {
    if f.Stopping? then 1 else 0
  }

  ghost predicate InDict(dict: map<ClientKey, Wrapper>, w: Wrapper) {
    exists k :: k in dict && dict[k] == w
  }

  ghost predicate Injective(dict: map<ClientKey, Wrapper>) {
    forall j, k :: j in dict && k in dict && dict[j] == dict[k] ==> j == k
  }

  /** Every wrapper is in exactly one place: the pool, the dictionary (once) or the hands of the fiber. */
  ghost predicate Places(max: nat, pool: set<Wrapper>, dict: map<ClientKey, Wrapper>, f: Fiber) {
    && (forall w :: w in pool ==> w < max && !InDict(dict, w))
    && (forall k :: k in dict ==> dict[k] < max)
    && Injective(dict)
    && (f.Stopping? ==> f.wrapper < max && f.wrapper !in pool && !InDict(dict, f.wrapper))
    && (forall w :: 0 <= w < max ==> w in pool || InDict(dict, w) || (f.Stopping? && f.wrapper == w))
    && |pool| + |dict| + InHand(f) == max
  }

  ghost predicate Counted(dict: map<ClientKey, Wrapper>, cnt: int, f: Fiber) {
    && cnt == |dict| + (if f.Stopping? && !f.why.Rejected? then 1 else 0)
    && (f.Finished? ==> dict == map[])
  }

  /** Exactly the wrappers outside the pool are started; the count of each is what is held of it; the event of a
      started one is set exactly when nothing is held; nothing is held of the others. */
  ghost predicate Referenced(max: nat, s: State) {
    && |s.refs| == |s.events| == max
    && (forall w: Wrapper :: w in s.started <==> w < max && w !in s.pool)
    && (forall w :: 0 <= w < max ==> s.refs[w] == s.held[w])
    && (forall w :: 0 <= w < max && w in s.started ==> (s.events[w] <==> s.refs[w] == 0))
    && (forall w :: w in s.held ==> w in s.started)
  }

  /** The values at point p when the clients of an order have been added: the last one on top. */
  function Layers(c: Config, order: seq<Registration>, p: Key): seq<Wrapper> {
    if order == [] then []
    else
      var last := order[|order| - 1];
      Repeat(last.wrapper, Count(PointsOf(c, last.key), p)) + Layers(c, order[..|order| - 1], p)
  }

  /** The ring holds exactly the points of the clients, as they were added. */
  ghost predicate Ringed(c: Config, ring: seq<Entry>, order: seq<Registration>) {
    && Sorted(ring) && |ring| == FACTOR * |order|
    && forall p: Key :: Stack(ring, p) == Layers(c, order, p)
  }

  ghost predicate DistinctKeys(order: seq<Registration>) {
    forall i, j :: 0 <= i < j < |order| ==> order[i].key != order[j].key
  }

  /** The clients in the order are those of the dictionary. */
  ghost predicate Recorded(order: seq<Registration>, dict: map<ClientKey, Wrapper>) {
    && |order| == |dict| && DistinctKeys(order)
    && (forall i :: 0 <= i < |order| ==> order[i].key in dict && dict[order[i].key] == order[i].wrapper)
    && (forall k :: k in dict ==> exists i :: 0 <= i < |order| && order[i].key == k)
  }

  /** While all clients are being removed, the ring is empty. */
  ghost predicate RingAgrees(c: Config, s: State) {
    if s.fiber.Clearing? || s.fiber.Finished? || (s.fiber.Stopping? && s.fiber.why.Cleared?)
    then s.ring == [] && s.order == []
    else Ringed(c, s.ring, s.order) && Recorded(s.order, s.dict)
  }

  ghost predicate Inv(c: Config, s: State) {
    && Places(c.max, s.pool, s.dict, s.fiber) && Counted(s.dict, s.cnt, s.fiber) && Referenced(c.max, s)
    && RingAgrees(c, s) && s.ok
  }

  // ---- places ----

  lemma DictAdd(dict: map<ClientKey, Wrapper>, key: ClientKey, w: Wrapper)
    requires key !in dict
    ensures forall v :: InDict(dict[key := w], v) <==> InDict(dict, v) || v == w
    ensures |dict[key := w]| == |dict| + 1
  {
    var d := dict[key := w];
    forall v
      ensures InDict(d, v) <==> InDict(dict, v) || v == w
    {
      if InDict(dict, v) {
        var k :| k in dict && dict[k] == v;
        assert d[k] == v;
      }
      if v == w {
        assert d[key] == v;
      }
    }
  }

  lemma DictRemove(dict: map<ClientKey, Wrapper>, key: ClientKey)
    requires key in dict && Injective(dict)
    ensures forall v :: InDict(dict - {key}, v) <==> InDict(dict, v) && v != dict[key]
    ensures |dict - {key}| == |dict| - 1
  {
    var d := dict - {key};
    forall v
      ensures InDict(d, v) <==> InDict(dict, v) && v != dict[key]
    {
      if InDict(dict, v) && v != dict[key] {
        var k :| k in dict && dict[k] == v;
        assert k in d && d[k] == v;
      }
    }
    assert d.Keys == dict.Keys - {key};
    assert |d| == |d.Keys| && |dict| == |dict.Keys|;
  }

  lemma InjectiveAdd(dict: map<ClientKey, Wrapper>, key: ClientKey, w: Wrapper)
    requires Injective(dict) && key !in dict && !InDict(dict, w)
    ensures Injective(dict[key := w])
  {
  }

  lemma PlacesAdd(max: nat, pool: set<Wrapper>, dict: map<ClientKey, Wrapper>, key: ClientKey, w: Wrapper)
    requires Places(max, pool, dict, Idle) && w in pool && key !in dict
    ensures Places(max, pool - {w}, dict[key := w], Idle)
  {
    DictAdd(dict, key, w);
    InjectiveAdd(dict, key, w);
  }

  lemma PlacesReject(max: nat, pool: set<Wrapper>, dict: map<ClientKey, Wrapper>, w: Wrapper)
    requires Places(max, pool, dict, Idle) && w in pool
    ensures Places(max, pool - {w}, dict, Stopping(w, Rejected))
  {
  }

  lemma PlacesTake(max: nat, pool: set<Wrapper>, dict: map<ClientKey, Wrapper>, f: Fiber, key: ClientKey, why: Why)
    requires Places(max, pool, dict, f) && !f.Stopping? && key in dict
    ensures Places(max, pool, dict - {key}, Stopping(dict[key], why))
  {
    DictRemove(dict, key);
    assert InDict(dict, dict[key]);
  }

  lemma PlacesBack(max: nat, pool: set<Wrapper>, dict: map<ClientKey, Wrapper>, f: Fiber, g: Fiber)
    requires Places(max, pool, dict, f) && f.Stopping? && !g.Stopping?
    ensures Places(max, pool + {f.wrapper}, dict, g)
  {
  }

  lemma PlacesSame(max: nat, pool: set<Wrapper>, dict: map<ClientKey, Wrapper>, f: Fiber, g: Fiber)
    requires Places(max, pool, dict, f) && !f.Stopping? && !g.Stopping?
    ensures Places(max, pool, dict, g)
  {
  }

  /** An add below the maximum never finds the pool empty. */
  lemma PoolHasOne(c: Config, s: State)
    requires Places(c.max, s.pool, s.dict, s.fiber) && Counted(s.dict, s.cnt, s.fiber) && s.fiber.Idle?
             && s.cnt != c.max
    ensures s.pool != {} && s.cnt < c.max
  {
  }

  lemma InDictOf(dict: map<ClientKey, Wrapper>, key: ClientKey)
    requires key in dict
    ensures InDict(dict, dict[key])
  {
  }

  // ---- the ring ----

  /** How many values lie above those of registration i at point p. */
  function Above(c: Config, order: seq<Registration>, i: nat, p: Key): nat
    requires i < |order|
  {
    var last := |order| - 1;
    if i == last then 0 else Count(PointsOf(c, order[last].key), p) + Above(c, order[..last], i, p)
  }

  /** The values of registration i lie right below those above it. */
  lemma {:induction false} LayerAt(c: Config, order: seq<Registration>, i: nat, p: Key)
    requires i < |order|
    ensures var n, above := Count(PointsOf(c, order[i].key), p), Above(c, order, i, p);
            && above + n <= |Layers(c, order, p)|
            && forall t :: above <= t < above + n ==> Layers(c, order, p)[t] == order[i].wrapper
    decreases |order|
  {
    var last := |order| - 1;
    if i < last {
      LayerAt(c, order[..last], i, p);
    }
  }

  lemma {:induction false} AboveZero(c: Config, order: seq<Registration>, i: nat, p: Key)
    requires i < |order|
    ensures Above(c, order, i, p) == 0 <==> forall j :: i < j < |order| ==> p !in PointsOf(c, order[j].key)
    decreases |order|
  {
    var last := |order| - 1;
    if i < last {
      AboveZero(c, order[..last], i, p);
      CountPositive(PointsOf(c, order[last].key), p);
    }
  }

  lemma {:induction false} OthersSame(order: seq<Registration>, key: ClientKey)
    requires forall i :: 0 <= i < |order| ==> order[i].key != key
    ensures Others(order, key) == order
  {
    if order != [] {
      OthersSame(order[..|order| - 1], key);
    }
  }

  lemma {:induction false} OthersAre(order: seq<Registration>, key: ClientKey)
    ensures forall r :: r in Others(order, key) <==> r in order && r.key != key
  {
    if order != [] {
      OthersAre(order[..|order| - 1], key);
      assert order == order[..|order| - 1] + [order[|order| - 1]];
    }
  }

  lemma {:induction false} OthersDistinct(order: seq<Registration>, key: ClientKey)
    requires DistinctKeys(order)
    ensures DistinctKeys(Others(order, key))
  {
    if order != [] {
      var front := order[..|order| - 1];
      OthersDistinct(front, key);
      OthersAre(front, key);
      forall r | r in Others(front, key) ensures r.key != order[|order| - 1].key {
        var i :| 0 <= i < |front| && front[i] == r;
      }
    }
  }

  lemma {:induction false} OthersSize(order: seq<Registration>, i: nat)
    requires DistinctKeys(order) && i < |order|
    ensures |Others(order, order[i].key)| == |order| - 1
    decreases |order|
  {
    var last := |order| - 1;
    if i == last {
      OthersSame(order[..last], order[i].key);
    } else {
      OthersSize(order[..last], i);
    }
  }

  /** Popping the values of a client that lies on top of all later ones leaves the values of the others. */
  lemma {:induction false} LayersOthers(c: Config, order: seq<Registration>, i: nat, p: Key)
    requires DistinctKeys(order) && i < |order| && GoodRemoval(c, order, order[i].key)
    ensures var n := Count(PointsOf(c, order[i].key), p);
            n <= |Layers(c, order, p)| && Layers(c, order, p)[n..] == Layers(c, Others(order, order[i].key), p)
    decreases |order|
  {
    var last, key := |order| - 1, order[i].key;
    var front := order[..last];
    if i == last {
      OthersSame(front, key);
      assert Others(order, key) == front;
    } else {
      LayersOthers(c, front, i, p);
      CountPositive(PointsOf(c, key), p);
      CountPositive(PointsOf(c, order[last].key), p);
      assert Apart(c, key, order[last].key);
      var rest := Others(front, key);
      assert (rest + [order[last]])[..|rest|] == rest;
    }
  }

  lemma RingedAdd(c: Config, ring: seq<Entry>, order: seq<Registration>, r: Registration)
    requires Ringed(c, ring, order)
    ensures Ringed(c, InsertAll(ring, PointsOf(c, r.key), r.wrapper), order + [r])
  {
    var ps := PointsOf(c, r.key);
    StackInsertAll(ring, ps, r.wrapper, 0);
    assert (order + [r])[..|order|] == order;
    forall p: Key
      ensures Stack(InsertAll(ring, ps, r.wrapper), p) == Layers(c, order + [r], p)
    {
      StackInsertAll(ring, ps, r.wrapper, p);
    }
  }

  /** Every point of a client in the ring is found when the client is removed. */
  lemma RemovalFinds(c: Config, ring: seq<Entry>, order: seq<Registration>, i: nat)
    requires Ringed(c, ring, order) && i < |order|
    ensures var ps := PointsOf(c, order[i].key);
            ring != [] && AllFound(ring, ps) && HighEnough(ring, ps) && |RemoveAll(ring, ps)| == |ring| - FACTOR
  {
    var ps := PointsOf(c, order[i].key);
    forall p: Key
      ensures Count(ps, p) <= |Stack(ring, p)|
    {
      LayerAt(c, order, i, p);
    }
    AllFoundIff(ring, ps);
    assert ps != [];
  }

  lemma RingedDrop(c: Config, ring: seq<Entry>, order: seq<Registration>, i: nat)
    requires Ringed(c, ring, order) && DistinctKeys(order) && i < |order| && GoodRemoval(c, order, order[i].key)
    ensures Ringed(c, RemoveAll(ring, PointsOf(c, order[i].key)), Others(order, order[i].key))
  {
    var ps := PointsOf(c, order[i].key);
    RemovalFinds(c, ring, order, i);
    StackRemoveAll(ring, ps, 0);
    OthersSize(order, i);
    forall p: Key
      ensures Stack(RemoveAll(ring, ps), p) == Layers(c, Others(order, order[i].key), p)
    {
      StackRemoveAll(ring, ps, p);
      LayersOthers(c, order, i, p);
    }
  }

  lemma RingedEmpty(c: Config)
    ensures Ringed(c, [], [])
  {
  }

  lemma {:induction false} LayerOwner(c: Config, order: seq<Registration>, p: Key, v: Wrapper)
    requires v in Layers(c, order, p)
    ensures exists i :: 0 <= i < |order| && order[i].wrapper == v && p in PointsOf(c, order[i].key)
  {
    var last := |order| - 1;
    if v in Layers(c, order[..last], p) {
      LayerOwner(c, order[..last], p, v);
      var i :| 0 <= i < last && order[..last][i].wrapper == v && p in PointsOf(c, order[..last][i].key);
      assert order[i].wrapper == v;
    } else {
      CountPositive(PointsOf(c, order[last].key), p);
      assert order[last].wrapper == v;
    }
  }

  /** An entry of the ring is a point of a client in it. */
  lemma EntryOwner(c: Config, ring: seq<Entry>, order: seq<Registration>, e: Entry) returns (i: nat)
    requires Ringed(c, ring, order) && e in ring
    ensures i < |order| && order[i].wrapper == e.value && e.key in PointsOf(c, order[i].key)
  {
    StackOf(ring, e.key);
    assert Entry(e.key, e.value) == e;
    LayerOwner(c, order, e.key, e.value);
    i :| 0 <= i < |order| && order[i].wrapper == e.value && e.key in PointsOf(c, order[i].key);
  }

  lemma RecordedAdd(order: seq<Registration>, dict: map<ClientKey, Wrapper>, r: Registration)
    requires Recorded(order, dict) && r.key !in dict
    ensures Recorded(order + [r], dict[r.key := r.wrapper])
  {
    var order', dict' := order + [r], dict[r.key := r.wrapper];
    DictAdd(dict, r.key, r.wrapper);
    forall k | k in dict'
      ensures exists i :: 0 <= i < |order'| && order'[i].key == k
    {
      if k == r.key {
        assert order'[|order|].key == k;
      } else {
        var i :| 0 <= i < |order| && order[i].key == k;
        assert order'[i].key == k;
      }
    }
  }

  lemma RecordedDrop(order: seq<Registration>, dict: map<ClientKey, Wrapper>, key: ClientKey)
    requires Recorded(order, dict) && key in dict && Injective(dict)
    ensures Recorded(Others(order, key), dict - {key})
  {
    var order' := Others(order, key);
    OthersAre(order, key);
    OthersDistinct(order, key);
    var at :| 0 <= at < |order| && order[at].key == key;
    OthersSize(order, at);
    DictRemove(dict, key);
    forall k | k in dict - {key}
      ensures exists i :: 0 <= i < |order'| && order'[i].key == k
    {
      OtherRecorded(order, dict, key, k);
    }
    forall i | 0 <= i < |order'|
      ensures order'[i].key in dict - {key} && (dict - {key})[order'[i].key] == order'[i].wrapper
    {
      assert order'[i] in order';
    }
  }

  lemma OtherRecorded(order: seq<Registration>, dict: map<ClientKey, Wrapper>, key: ClientKey, k: ClientKey)
    requires Recorded(order, dict) && k in dict && k != key
    ensures exists i :: 0 <= i < |Others(order, key)| && Others(order, key)[i].key == k
  {
    var order' := Others(order, key);
    OthersAre(order, key);
    var i :| 0 <= i < |order| && order[i].key == k;
    assert order[i] in order';
    var j :| 0 <= j < |order'| && order'[j] == order[i];
  }

  lemma AnswerInRing(ring: seq<Entry>, width: nat, h: Key)
    requires width > 0 && Answer(ring, width, h).Some?
    ensures exists e :: e in ring && e.value == Answer(ring, width, h).value
  {
    FirstFromIs(ring, h);
    if FirstFrom(ring, h).Some? {
      var i :| 0 <= i < |ring| && FirstFrom(ring, h) == Some(ring[i]) && ring[i].key >= h
               && forall j :: 0 <= j < i ==> ring[j].key < h;
      assert ring[i] in ring;
    } else {
      assert ring[0] in ring;
    }
  }

  /** What a lookup returns is the wrapper of a client in the dictionary. */
  lemma AnswerIsRegistered(c: Config, s: State, h: Key)
    requires RingAgrees(c, s) && c.width > 0 && Answer(s.ring, c.width, h).Some?
    ensures InDict(s.dict, Answer(s.ring, c.width, h).value)
  {
    AnswerInRing(s.ring, c.width, h);
    var e :| e in s.ring && e.value == Answer(s.ring, c.width, h).value;
    var i := EntryOwner(c, s.ring, s.order, e);
    InDictOf(s.dict, s.order[i].key);
  }

  // ---- references ----

  lemma ReferencedAdd(max: nat, s: State, t: State, w: Wrapper)
    requires Referenced(max, s) && w in s.pool && w < max
    requires t.pool == s.pool - {w} && t.started == s.started + {w} && t.events == s.events[w := true]
    requires t.refs == s.refs && t.held == s.held
    ensures Referenced(max, t) && s.refs[w] == 0 && w !in s.started
  {
    assert s.refs[w] == s.held[w];
  }

  lemma ReferencedBack(max: nat, s: State, t: State, w: Wrapper)
    requires Referenced(max, s) && w !in s.pool && w < max && s.events[w]
    requires t.pool == s.pool + {w} && t.started == s.started - {w} && t.events == s.events
    requires t.refs == s.refs && t.held == s.held
    ensures Referenced(max, t) && s.refs[w] == 0
  {
    assert s.refs[w] == s.held[w];
  }

  lemma ReferencedAcquire(max: nat, s: State, t: State, w: Wrapper)
    requires Referenced(max, s) && w < max && w !in s.pool
    requires t.pool == s.pool && t.started == s.started && t.refs == s.refs[w := s.refs[w] + 1]
    requires t.held == s.held + multiset{w}
    requires t.events == if s.refs[w] + 1 == 1 then s.events[w := false] else s.events
    ensures Referenced(max, t) && w in s.started && s.refs[w] >= 0
  {
  }

  lemma ReferencedRelease(max: nat, s: State, t: State, w: Wrapper)
    requires Referenced(max, s) && w in s.held
    requires t.pool == s.pool && t.started == s.started
    requires w < max ==> t.refs == s.refs[w := s.refs[w] - 1]
    requires t.held == s.held - multiset{w}
    requires w < max ==> t.events == if s.refs[w] - 1 == 0 then s.events[w := true] else s.events
    ensures Referenced(max, t) && w in s.started && w < max && s.refs[w] > 0
  {
  }

  lemma ReferencedSame(max: nat, s: State, t: State)
    requires Referenced(max, s) && t.pool == s.pool && t.started == s.started && t.refs == s.refs
    requires t.events == s.events && t.held == s.held
    ensures Referenced(max, t)
  {
  }

  // ---- every step keeps the invariant ----

  lemma AddKeeps(c: Config, s: State, key: ClientKey, w: Wrapper)
    requires Inv(c, s) && s.fiber.Idle? && (s.pool != {} ==> w in s.pool)
    ensures Inv(c, AddClient(s, c, key, w))
  {
    if s.cnt != c.max {
      var t := AddClient(s, c, key, w);
      PoolHasOne(c, s);
      ReferencedAdd(c.max, s, t, w);
      if key in s.dict {
        PlacesReject(c.max, s.pool, s.dict, w);
      } else {
        PlacesAdd(c.max, s.pool, s.dict, key, w);
        DictAdd(s.dict, key, w);
        RingedAdd(c, s.ring, s.order, Registration(key, w));
        RecordedAdd(s.order, s.dict, Registration(key, w));
      }
    }
  }

  lemma DropKeeps(c: Config, s: State, key: ClientKey)
    requires Inv(c, s) && s.fiber.Idle? && GoodRemoval(c, s.order, key)
    ensures Inv(c, DropClient(s, c, key))
  {
    if key in s.dict {
      var t := DropClient(s, c, key);
      PlacesTake(c.max, s.pool, s.dict, s.fiber, key, Removed);
      InDictOf(s.dict, key);
      ReferencedSame(c.max, s, t);
      DictRemove(s.dict, key);
      var i :| 0 <= i < |s.order| && s.order[i].key == key;
      RemovalFinds(c, s.ring, s.order, i);
      RingedDrop(c, s.ring, s.order, i);
      RecordedDrop(s.order, s.dict, key);
      CountWithin(c.max, s);
    }
  }

  lemma CountWithin(max: nat, s: State)
    requires Places(max, s.pool, s.dict, s.fiber) && Counted(s.dict, s.cnt, s.fiber)
    ensures 0 <= s.cnt <= max && (s.dict != map[] ==> s.cnt > 0)
  {
    if s.dict != map[] {
      var k :| k in s.dict;
      assert k in s.dict.Keys && |s.dict.Keys| > 0;
    }
  }

  lemma ClearKeeps(c: Config, s: State, final: bool)
    requires Inv(c, s) && s.fiber.Idle?
    ensures Inv(c, StartClearing(s, final))
  {
    PlacesSame(c.max, s.pool, s.dict, s.fiber, Clearing(final));
    ReferencedSame(c.max, s, StartClearing(s, final));
  }

  lemma TakeKeeps(c: Config, s: State, key: ClientKey)
    requires Inv(c, s) && s.fiber.Clearing? && key in s.dict
    ensures Inv(c, TakeClient(s, c, key))
  {
    PlacesTake(c.max, s.pool, s.dict, s.fiber, key, Cleared(s.fiber.final));
    InDictOf(s.dict, key);
    ReferencedSame(c.max, s, TakeClient(s, c, key));
    DictRemove(s.dict, key);
    CountWithin(c.max, s);
  }

  lemma TakenKeeps(c: Config, s: State)
    requires Inv(c, s) && s.fiber.Clearing? && s.dict == map[]
    ensures Inv(c, EndClearing(s))
  {
    PlacesSame(c.max, s.pool, s.dict, s.fiber, EndClearing(s).fiber);
    ReferencedSame(c.max, s, EndClearing(s));
    RingedEmpty(c);
  }

  lemma StoppedKeeps(c: Config, s: State)
    requires Inv(c, s) && s.fiber.Stopping? && s.fiber.wrapper < |s.events| && s.events[s.fiber.wrapper]
    ensures Inv(c, EndStopping(s))
  {
    var t := EndStopping(s);
    PlacesBack(c.max, s.pool, s.dict, s.fiber, t.fiber);
    ReferencedBack(c.max, s, t, s.fiber.wrapper);
  }

  lemma AcquireKeeps(c: Config, s: State, request: Key)
    requires Inv(c, s) && c.width > 0
    ensures Inv(c, AcquireClient(s, c, request))
  {
    var h := c.hash(0, request);
    var t := AcquireClient(s, c, request);
    if s.ring != [] {
      if Answer(s.ring, c.width, h).Some? {
        AnswerIsRegistered(c, s, h);
        var w := Answer(s.ring, c.width, h).value;
        var k :| k in s.dict && s.dict[k] == w;
        ReferencedAcquire(c.max, s, t, w);
      } else {
        ReferencedSame(c.max, s, t);
      }
    }
  }

  lemma ReleaseKeeps(c: Config, s: State, w: Wrapper)
    requires Inv(c, s) && w in s.held
    ensures Inv(c, ReleaseClient(s, w))
  {
    assert w in s.started;
    ReferencedRelease(c.max, s, ReleaseClient(s, w), w);
  }

  lemma StepKeeps(c: Config, s: State, step: Step)
    requires Inv(c, s) && Enabled(c, s, step) && GoodStep(c, s, step)
    ensures Inv(c, Apply(c, s, step))
  {
    match step
    case Add(key, w) => AddKeeps(c, s, key, w);
    case RemoveClient(key) => DropKeeps(c, s, key);
    case RemoveAllClients(final) => ClearKeeps(c, s, final);
    case TakeNext(key) => TakeKeeps(c, s, key);
    case AllTaken => TakenKeeps(c, s);
    case Stopped => StoppedKeeps(c, s);
    case Acquire(request) => AcquireKeeps(c, s, request);
    case Release(w) => ReleaseKeeps(c, s, w);
  }

  lemma InitInv(c: Config)
    ensures Inv(c, Init(c))
  {
    RingedEmpty(c);
  }

  lemma {:induction false} RunInv(c: Config, run: seq<State>, steps: seq<Step>, i: nat)
    requires Run(c, run, steps) && i < |run| && forall j :: 0 <= j < i ==> GoodStep(c, run[j], steps[j])
    ensures Inv(c, run[i])
  {
    if i == 0 {
      InitInv(c);
    } else {
      RunInv(c, run, steps, i - 1);
      StepKeeps(c, run[i - 1], steps[i - 1]);
    }
  }

  // ---- when the ring agrees with the dictionary ----

  ghost predicate InRing(ring: seq<Entry>, w: Wrapper) {
    exists e :: e in ring && e.value == w
  }

  /** The ring refers only to registered clients. */
  ghost predicate Matches(s: State) {
    forall w: Wrapper :: InRing(s.ring, w) ==> InDict(s.dict, w)
  }

  lemma RingHasDict(c: Config, ring: seq<Entry>, order: seq<Registration>, dict: map<ClientKey, Wrapper>, w: Wrapper)
    requires Ringed(c, ring, order) && Recorded(order, dict)
    ensures InRing(ring, w) <==> InDict(dict, w)
  {
    if InRing(ring, w) {
      var e :| e in ring && e.value == w;
      var i := EntryOwner(c, ring, order, e);
      InDictOf(dict, order[i].key);
    }
    if InDict(dict, w) {
      var k :| k in dict && dict[k] == w;
      var i :| 0 <= i < |order| && order[i].key == k;
      InRingOf(c, ring, order, i);
    }
  }

  lemma InRingOf(c: Config, ring: seq<Entry>, order: seq<Registration>, i: nat)
    requires Ringed(c, ring, order) && i < |order|
    ensures InRing(ring, order[i].wrapper)
  {
    var p := PointsOf(c, order[i].key)[0];
    CountPositive(PointsOf(c, order[i].key), p);
    LayerAt(c, order, i, p);
    assert Stack(ring, p)[Above(c, order, i, p)] == order[i].wrapper;
    InRingAt(ring, p, order[i].wrapper);
  }

  lemma InvMatches(c: Config, s: State)
    requires Inv(c, s)
    ensures Matches(s)
  {
    if s.ring != [] {
      forall w: Wrapper ensures InRing(s.ring, w) ==> InDict(s.dict, w) { RingHasDict(c, s.ring, s.order, s.dict, w); }
    }
  }

  /** Where a later client shares a point, removal pops that client's value instead, and one of its own stays. */
  lemma BadRemoval(c: Config, s: State, key: ClientKey)
    requires Inv(c, s) && s.fiber.Idle? && !GoodRemoval(c, s.order, key)
    ensures !Matches(DropClient(s, c, key))
  {
    var i, j :| 0 <= i < j < |s.order| && s.order[i].key == key && !Apart(c, key, s.order[j].key);
    var p :| p in PointsOf(c, key) && p in PointsOf(c, s.order[j].key);
    var w := s.order[i].wrapper;
    StaysInRing(c, s.ring, s.order, i, j, p);
    DictRemove(s.dict, key);
    assert InRing(DropClient(s, c, key).ring, w) && !InDict(DropClient(s, c, key).dict, w);
  }

  lemma StaysInRing(c: Config, ring: seq<Entry>, order: seq<Registration>, i: nat, j: nat, p: Key)
    requires Ringed(c, ring, order) && i < j < |order|
    requires p in PointsOf(c, order[i].key) && p in PointsOf(c, order[j].key)
    ensures InRing(RemoveAll(ring, PointsOf(c, order[i].key)), order[i].wrapper)
  {
    var ps, w := PointsOf(c, order[i].key), order[i].wrapper;
    RemovalFinds(c, ring, order, i);
    StackRemoveAll(ring, ps, p);
    StaysInLayers(c, order, i, j, p);
    InRingAt(RemoveAll(ring, ps), p, w);
  }

  lemma InRingAt(ring: seq<Entry>, p: Key, w: Wrapper)
    requires w in Stack(ring, p)
    ensures InRing(ring, w)
  {
    StackOf(ring, p);
    assert Entry(p, w) in ring;
  }

  lemma StaysInLayers(c: Config, order: seq<Registration>, i: nat, j: nat, p: Key)
    requires i < j < |order| && p in PointsOf(c, order[i].key) && p in PointsOf(c, order[j].key)
    ensures var n := Count(PointsOf(c, order[i].key), p);
            n <= |Layers(c, order, p)| && order[i].wrapper in Layers(c, order, p)[n..]
  {
    var n, above := Count(PointsOf(c, order[i].key), p), Above(c, order, i, p);
    AboveZero(c, order, i, p);
    LayerAt(c, order, i, p);
    CountPositive(PointsOf(c, order[i].key), p);
    assert Layers(c, order, p)[n..][above - 1] == Layers(c, order, p)[above + n - 1];
  }

  lemma MatchesAfter(c: Config, s: State, step: Step)
    requires Inv(c, s) && Enabled(c, s, step) && Matches(Apply(c, s, step))
    ensures GoodStep(c, s, step)
  {
    if step.RemoveClient? && !GoodRemoval(c, s.order, step.key) {
      BadRemoval(c, s, step.key);
    }
  }

  ghost predicate AllMatch(run: seq<State>) {
    forall i :: 0 <= i < |run| ==> Matches(run[i])
  }

  lemma GoodAt(c: Config, run: seq<State>, steps: seq<Step>, i: nat)
    requires Run(c, run, steps) && AllMatch(run) && i < |steps| && Inv(c, run[i])
    ensures GoodStep(c, run[i], steps[i])
  {
    assert Matches(run[i + 1]);
    MatchesAfter(c, run[i], steps[i]);
  }

  lemma {:induction false} MatchesMeansGood(c: Config, run: seq<State>, steps: seq<Step>, n: nat)
    requires Run(c, run, steps) && n <= |steps| && AllMatch(run)
    ensures forall i :: 0 <= i < n ==> GoodStep(c, run[i], steps[i])
  {
    if n > 0 {
      MatchesMeansGood(c, run, steps, n - 1);
      RunInv(c, run, steps, n - 1);
      GoodAt(c, run, steps, n - 1);
    }
  }

  /** In any run, whatever the hash: the ring refers only to registered clients all along if and only if no client
      was removed while one added later, and still registered, shared a point with it. */
  lemma AgreementExactly(c: Config, run: seq<State>, steps: seq<Step>)
    requires Run(c, run, steps)
    ensures AllMatch(run) <==> Good(c, run, steps)
  {
    if AllMatch(run) {
      MatchesMeansGood(c, run, steps, |steps|);
    }
    if Good(c, run, steps) {
      forall i | 0 <= i < |run|
        ensures Matches(run[i])
      {
        RunInv(c, run, steps, i);
        InvMatches(c, run[i]);
      }
    }
  }

  // ---- what holds in every such run ----

  /** No assertion of the registry or of its wrappers ever fails, and an add never waits for a free wrapper. The last
      assertion of a lookup, and the one that it gave a wrapper, are not among them: `gap` is about those. */
  lemma NoAssertionFails(c: Config, run: seq<State>, steps: seq<Step>, i: nat)
    requires Run(c, run, steps) && Good(c, run, steps) && i < |run|
    ensures run[i].ok
    ensures run[i].fiber.Idle? && run[i].cnt != c.max ==> run[i].pool != {}
  {
    RunInv(c, run, steps, i);
    if run[i].fiber.Idle? && run[i].cnt != c.max {
      PoolHasOne(c, run[i]);
    }
  }

  /** Dictionary, ring, pool, counter and references agree at every point where the fiber waits: the ring holds
      the clients of the dictionary, with 128 points each, unless it was emptied to remove them all; every wrapper is
      in one place; there are never more than the maximum; every count is what is held of the wrapper, and whoever
      holds a client holds a started one. */
  lemma Agreement(c: Config, run: seq<State>, steps: seq<Step>, i: nat)
    requires Run(c, run, steps) && Good(c, run, steps) && i < |run|
    ensures var s := run[i];
            && 0 <= s.cnt <= c.max && |s.pool| + |s.dict| + InHand(s.fiber) == c.max && Injective(s.dict)
            && (forall w :: w in s.pool ==> !InDict(s.dict, w))
            && (s.fiber.Stopping? ==> s.fiber.wrapper !in s.pool && !InDict(s.dict, s.fiber.wrapper))
            && (forall w: Wrapper :: w < c.max ==>
                  (w in s.started <==> InDict(s.dict, w) || (s.fiber.Stopping? && s.fiber.wrapper == w)))
            && (s.ring != [] ==> |s.ring| == 128 * |s.dict|)
            && (s.ring != [] ==> forall w: Wrapper :: InRing(s.ring, w) <==> InDict(s.dict, w))
            && (s.ring == [] && s.dict != map[] ==>
                  s.fiber.Clearing? || (s.fiber.Stopping? && s.fiber.why.Cleared?))
            && (s.fiber.Clearing? || s.fiber.Finished? || (s.fiber.Stopping? && s.fiber.why.Cleared?) ==> s.ring == [])
            && |s.refs| == c.max && (forall w: Wrapper :: w < c.max ==> s.refs[w] == s.held[w])
            && (forall w :: w in s.held ==> w in s.started)
  {
    RunInv(c, run, steps, i);
    var s := run[i];
    CountWithin(c.max, s);
    if s.ring != [] {
      forall w: Wrapper
        ensures InRing(s.ring, w) <==> InDict(s.dict, w)
      {
        RingHasDict(c, s.ring, s.order, s.dict, w);
      }
    }
    if s.dict != map[] {
      var k :| k in s.dict;
      if Ringed(c, s.ring, s.order) && Recorded(s.order, s.dict) {
        var j :| 0 <= j < |s.order| && s.order[j].key == k;
        RemovalFinds(c, s.ring, s.order, j);
      }
    }
  }

  /** Client w has been acquired between s and t: it is counted once more, its event is reset, and nothing else has
      changed. */
  ghost predicate Acquired(s: State, t: State, w: Wrapper) {
    && w < |s.refs| && w < |s.events| && t.refs == s.refs[w := s.refs[w] + 1] && t.events == s.events[w := false]
    && t == s.(refs := t.refs, events := t.events, held := s.held + multiset{w})
  }

  /** What a step does to the clients registered, whatever becomes of wrappers, ring and counters: a client is added
      unless the maximum number is registered or its key is already, and it stays until it is removed, or taken out
      when all are. */
  function Registering(max: nat, m: map<ClientKey, Wrapper>, step: Step): map<ClientKey, Wrapper> {
    match step
    case Add(key, w) => if |m| == max || key in m then m else m[key := w]
    case RemoveClient(key) => m - {key}
    case TakeNext(key) => m - {key}
    case _ => m
  }

  function Registered(max: nat, steps: seq<Step>): map<ClientKey, Wrapper> {
    if steps == [] then map[]
    else Registering(max, Registered(max, steps[..|steps| - 1]), steps[|steps| - 1])
  }

  /** The dictionary holds the clients registered by the steps so far. */
  lemma {:induction false} DictionaryIs(c: Config, run: seq<State>, steps: seq<Step>, i: nat)
    requires Run(c, run, steps) && Good(c, run, steps) && i < |run|
    ensures run[i].dict == Registered(c.max, steps[..i])
  {
    if i > 0 {
      DictionaryIs(c, run, steps, i - 1);
      RunInv(c, run, steps, i - 1);
      assert steps[..i][..i - 1] == steps[..i - 1];
      assert run[i] == Apply(c, run[i - 1], steps[i - 1]) && Enabled(c, run[i - 1], steps[i - 1]);
      if steps[i - 1].Add? {
        AddFindsWrapper(c, run[i - 1], steps[i - 1].key, steps[i - 1].wrapper);
      }
      DictionaryStep(c, run[i - 1], steps[i - 1]);
    }
  }

  lemma DictionaryStep(c: Config, s: State, step: Step)
    requires Enabled(c, s, step) && (step.Add? ==> AddFinds(c, s, step.wrapper))
    ensures Apply(c, s, step).dict == Registering(c.max, s.dict, step)
  {
    match step
    case Add(key, w) => DictionaryAdd(c, s, key, w);
    case RemoveClient(key) => DictionaryDrop(c, s, key);
    case RemoveAllClients(_) => case TakeNext(_) => case AllTaken => case Stopped =>
    case Acquire(_) => case Release(_) =>
  }

  lemma DictionaryAdd(c: Config, s: State, key: ClientKey, w: Wrapper)
    requires AddFinds(c, s, w)
    ensures AddClient(s, c, key, w).dict == if |s.dict| == c.max || key in s.dict then s.dict else s.dict[key := w]
  {
  }

  lemma DictionaryDrop(c: Config, s: State, key: ClientKey)
    ensures DropClient(s, c, key).dict == s.dict - {key}
  {
    assert key !in s.dict ==> s.dict - {key} == s.dict;
  }

  /** The counter is the number of clients registered, and below the maximum the wrapper is one of the pool. */
  predicate AddFinds(c: Config, s: State, w: Wrapper) {
    s.cnt == |s.dict| && (s.cnt != c.max ==> w in s.pool && w < |s.refs| && w < |s.events|)
  }

  lemma AddFindsWrapper(c: Config, s: State, key: ClientKey, w: Wrapper)
    requires Inv(c, s) && Enabled(c, s, Add(key, w))
    ensures AddFinds(c, s, w)
  {
    if s.cnt != c.max {
      PoolHasOne(c, s);
    }
  }

  /** What the registry's fiber waits for, and what comes then. Idle, it takes any message. When all clients are to be
      removed it takes them out one by one, and then goes on or, if it was told to stop, is finished. A client is being
      stopped exactly as long as somebody holds it, and whoever holds one can release it; the wrapper then goes back to
      the pool. */
  lemma FiberGoesOn(c: Config, run: seq<State>, steps: seq<Step>, i: nat)
    requires Run(c, run, steps) && Good(c, run, steps) && i < |run|
    ensures var s := run[i];
            && (forall w :: w in s.held ==> Enabled(c, s, Release(w)))
            && (s.fiber.Idle? ==> IdleGoesOn(c, s))
            && (s.fiber.Clearing? ==> ClearingGoesOn(c, s, s.fiber.final))
            && (s.fiber.Stopping? ==> StoppingGoesOn(c, s, s.fiber.wrapper, s.fiber.why))
            && (s.fiber.Finished? ==> s.dict == map[] && s.ring == [])
  {
    RunInv(c, run, steps, i);
    var s := run[i];
    if s.fiber.Stopping? {
      StoppingUntilReleased(c, s);
    } else if s.fiber.Idle? {
      forall key ensures TakesAdd(c, s, key) { IdleTakesAdd(c, s, key); }
    }
  }

  ghost predicate IdleGoesOn(c: Config, s: State) {
    && (forall key :: TakesAdd(c, s, key))
    && (forall key :: TakesRemoval(c, s, key))
    && (forall final :: TakesRemoveAll(c, s, final))
  }

  ghost predicate ClearingGoesOn(c: Config, s: State, final: bool)
    requires s.fiber == Clearing(final)
  {
    if s.dict == map[] then Enabled(c, s, AllTaken) && Apply(c, s, AllTaken).fiber == if final then Finished else Idle
    else
      forall key :: key in s.dict ==>
        Enabled(c, s, TakeNext(key)) && Apply(c, s, TakeNext(key)).fiber == Stopping(s.dict[key], Cleared(final))
  }

  ghost predicate StoppingGoesOn(c: Config, s: State, w: Wrapper, why: Why)
    requires s.fiber == Stopping(w, why)
  {
    && (Enabled(c, s, Stopped) <==> w !in s.held)
    && (w !in s.held ==>
          var t := Apply(c, s, Stopped);
          && t.pool == s.pool + {w} && t.started == s.started - {w}
          && t.fiber == match why case Cleared(final) => Clearing(final) case _ => Idle)
  }

  lemma StoppingUntilReleased(c: Config, s: State)
    requires Referenced(c.max, s) && Places(c.max, s.pool, s.dict, s.fiber) && s.fiber.Stopping?
    ensures StoppingGoesOn(c, s, s.fiber.wrapper, s.fiber.why)
  {
    assert s.fiber.wrapper in s.started && s.refs[s.fiber.wrapper] == s.held[s.fiber.wrapper];
  }

  /** A client can be added, with some wrapper; one whose key is registered is stopped at once. */
  ghost predicate TakesAdd(c: Config, s: State, key: ClientKey) {
    && (exists w :: Enabled(c, s, Add(key, w)))
    && (key in s.dict && |s.dict| < c.max ==>
          forall w :: Enabled(c, s, Add(key, w)) ==>
            w in s.pool && Apply(c, s, Add(key, w)).fiber == Stopping(w, Rejected))
  }

  ghost predicate TakesRemoval(c: Config, s: State, key: ClientKey) {
    && Enabled(c, s, RemoveClient(key))
    && (key in s.dict ==> Apply(c, s, RemoveClient(key)).fiber == Stopping(s.dict[key], Removed))
  }

  ghost predicate TakesRemoveAll(c: Config, s: State, final: bool) {
    Enabled(c, s, RemoveAllClients(final)) && Apply(c, s, RemoveAllClients(final)).fiber == Clearing(final)
  }

  lemma IdleTakesAdd(c: Config, s: State, key: ClientKey)
    requires Inv(c, s) && s.fiber.Idle?
    ensures TakesAdd(c, s, key)
  {
    if s.pool != {} {
      var w :| w in s.pool;
      assert Enabled(c, s, Add(key, w));
    } else {
      assert Enabled(c, s, Add(key, 0));
    }
    if |s.dict| < c.max {
      PoolHasOne(c, s);
    }
  }

  /** Acquiring from an empty ring gives nothing. Otherwise it gives the client at the point that serves the hashed
      request: the point with the least key from there on, the front one among equal keys, and the first point of the
      ring if there is none. That client is registered, started and not being stopped. The lookup fails exactly when
      all points lie in the bucket of the hashed request, before it. */
  lemma AcquireServes(c: Config, run: seq<State>, steps: seq<Step>, i: nat, request: Key)
    requires Run(c, run, steps) && Good(c, run, steps) && i < |run| && c.width > 0
    ensures var s, h := run[i], c.hash(0, request);
            var t := AcquireClient(s, c, request);
            if s.ring == [] then t == s
            else if forall e :: e in s.ring ==> e.key < h && e.key / c.width == h / c.width then t == s.(gap := true)
            else
              && (exists k: nat :: ServedBy(s.ring, h, k))
              && (forall k: nat :: ServedBy(s.ring, h, k) ==> Serves(s, t, s.ring[k].value))
  {
    RunInv(c, run, steps, i);
    var s, h := run[i], c.hash(0, request);
    NoAnswer(s.ring, c.width, h);
    if s.ring != [] && Answer(s.ring, c.width, h).Some? {
      var k := AnswerIs(s.ring, c.width, h);
      AcquiredWhat(c, s, request);
    }
  }

  /** Client w has been acquired, is registered and started, and is not being stopped. */
  ghost predicate Serves(s: State, t: State, w: Wrapper) {
    Acquired(s, t, w) && InDict(s.dict, w) && w in s.started && !(s.fiber.Stopping? && s.fiber.wrapper == w)
  }

  /** In a ring that agrees with the dictionary, what is acquired is what the lookup answers. */
  lemma AcquiredWhat(c: Config, s: State, request: Key)
    requires Inv(c, s) && c.width > 0 && s.ring != [] && Answer(s.ring, c.width, c.hash(0, request)).Some?
    ensures Serves(s, AcquireClient(s, c, request), Answer(s.ring, c.width, c.hash(0, request)).value)
  {
    AnswerIsRegistered(c, s, c.hash(0, request));
    var w := Answer(s.ring, c.width, c.hash(0, request)).value;
    var k :| k in s.dict && s.dict[k] == w;
    assert s.refs[w] == s.held[w];
    assert s.refs[w] != 0 ==> s.events[w := false] == s.events;
  }

  /** Releasing a client that was acquired counts one less for its wrapper and for no other, and sets the event the
      stopper waits for exactly when nobody else holds the client. */
  lemma ReleaseServes(c: Config, run: seq<State>, steps: seq<Step>, i: nat, w: Wrapper)
    requires Run(c, run, steps) && Good(c, run, steps) && i < |run| && w in run[i].held
    ensures var s := run[i];
            var t := ReleaseClient(s, w);
            && t.ok && w in s.started && t.held == s.held - multiset{w} && t.started == s.started
            && |t.refs| == |s.refs| == |t.events| == |s.events| && w < |s.refs|
            && t.refs[w] == s.refs[w] - 1 && (t.events[w] <==> w !in t.held)
            && (forall v: Wrapper :: v < |s.refs| && v != w ==> t.refs[v] == s.refs[v] && t.events[v] == s.events[v])
  {
    RunInv(c, run, steps, i);
    assert w in run[i].started;
    assert run[i].refs[w] == run[i].held[w];
  }

  /** A request is given client w. */
  ghost predicate Gives(c: Config, s: State, request: Key, w: Wrapper)
    requires c.width > 0
  {
    Acquired(s, AcquireClient(s, c, request), w)
  }

  /** The step removes client w, or all clients. */
  predicate TakesAway(s: State, step: Step, w: Wrapper) {
    step.RemoveAllClients? || (step.RemoveClient? && step.key in s.dict && s.dict[step.key] == w)
  }

  /** Minimal disruption: a request that was given client w is given w again after any step, except that a client just
      registered may take it over, until w is removed or all clients are. */
  lemma Disruption(c: Config, run: seq<State>, steps: seq<Step>, i: nat, request: Key, w: Wrapper)
    requires Run(c, run, steps) && Good(c, run, steps) && i < |steps| && c.width > 0 && Gives(c, run[i], request, w)
    ensures TakesAway(run[i], steps[i], w)
            || Gives(c, run[i + 1], request, w)
            || (steps[i].Add? && run[i + 1].dict == run[i].dict[steps[i].key := steps[i].wrapper]
                && steps[i].key !in run[i].dict && Gives(c, run[i + 1], request, steps[i].wrapper))
  {
    RunInv(c, run, steps, i);
    assert Enabled(c, run[i], steps[i]) && GoodStep(c, run[i], steps[i]) && run[i + 1] == Apply(c, run[i], steps[i]);
    if !TakesAway(run[i], steps[i], w) {
      GivesKept(c, run[i], steps[i], request, w);
    }
  }

  lemma GivesKept(c: Config, s: State, step: Step, request: Key, w: Wrapper)
    requires Inv(c, s) && Enabled(c, s, step) && GoodStep(c, s, step) && c.width > 0
    requires Gives(c, s, request, w) && !TakesAway(s, step, w)
    ensures var t := Apply(c, s, step);
            || Gives(c, t, request, w)
            || (step.Add? && t.dict == s.dict[step.key := step.wrapper] && step.key !in s.dict
                && Gives(c, t, request, step.wrapper))
  {
    GivenWhat(c, s, request, w);
    AnswerKept(c, s, step, c.hash(0, request), w);
    StepKeeps(c, s, step);
    AcquiredWhat(c, Apply(c, s, step), request);
  }

  lemma AnswerKept(c: Config, s: State, step: Step, h: Key, w: Wrapper)
    requires Inv(c, s) && Enabled(c, s, step) && GoodStep(c, s, step) && c.width > 0
    requires s.ring != [] && Answer(s.ring, c.width, h) == Some(w) && !TakesAway(s, step, w)
    ensures var t := Apply(c, s, step);
            var a := Answer(t.ring, c.width, h);
            && t.ring != []
            && (a == Some(w) || (step.Add? && step.key !in s.dict && t.dict == s.dict[step.key := step.wrapper]
                                 && a == Some(step.wrapper)))
  {
    if step.Add? {
      AddDisruption(s.ring, PointsOf(c, step.key), step.wrapper, c.width, h);
    } else if step.RemoveClient? && step.key in s.dict {
      OwnOnTop(c, s, step.key);
      RemovalDisruption(s.ring, PointsOf(c, step.key), s.dict[step.key], c.width, h);
    }
  }

  lemma GivenWhat(c: Config, s: State, request: Key, w: Wrapper)
    requires Inv(c, s) && c.width > 0 && Gives(c, s, request, w)
    ensures s.ring != [] && Answer(s.ring, c.width, c.hash(0, request)) == Some(w)
  {
    var t := AcquireClient(s, c, request);
    assert |t.held| == |s.held| + 1;
    if Answer(s.ring, c.width, c.hash(0, request)).Some? {
      AcquiredWhat(c, s, request);
      var v := Answer(s.ring, c.width, c.hash(0, request)).value;
      assert t.held[v] == s.held[v] + 1;
    }
  }

  /** At its own points a client that may be removed is on top. */
  lemma OwnOnTop(c: Config, s: State, key: ClientKey)
    requires Inv(c, s) && s.fiber.Idle? && key in s.dict && GoodRemoval(c, s.order, key)
    ensures OnTop(s.ring, PointsOf(c, key), s.dict[key])
  {
    var i :| 0 <= i < |s.order| && s.order[i].key == key;
    forall p: Key, t | 0 <= t < Count(PointsOf(c, key), p) && t < |Stack(s.ring, p)|
      ensures Stack(s.ring, p)[t] == s.dict[key]
    {
      CountPositive(PointsOf(c, key), p);
      forall j | i < j < |s.order| ensures p !in PointsOf(c, s.order[j].key) { assert Apart(c, key, s.order[j].key); }
      AboveZero(c, s.order, i, p);
      LayerAt(c, s.order, i, p);
    }
  }

  // ---- the lookup gap does occur ----

  /** A hash that sends every client to point 0 and request 1 to hash 1. */
  function FlatHash(start: nat, key: Key): Key {
    if start == 0 && key == 1 then 1 else 0
  }

  const FLAT: Config := Config(2, 0x8000_0000, FlatHash, _ => 0)

  /** There is a run in which one client is registered and a request is not served, because its hash lies in the
      bucket of the client's only point, after it. */
  lemma GapHappens() returns (run: seq<State>, steps: seq<Step>)
    ensures Run(FLAT, run, steps) && Good(FLAT, run, steps)
    ensures var s := run[|run| - 1]; s.gap && s.ring != [] && s.dict == map[5 := 0]
  {
    var s0 := Init(FLAT);
    var s1 := AddClient(s0, FLAT, 5, 0);
    var s2 := AcquireClient(s1, FLAT, 1);
    run, steps := [s0, s1, s2], [Add(5, 0), Acquire(1)];
    FlatGap();
    assert s1.ring == InsertAll([], PointsOf(FLAT, 5), 0);
  }

  lemma FlatGap()
    ensures var ring := InsertAll([], PointsOf(FLAT, 5), 0); ring != [] && Answer(ring, FLAT.width, 1) == None
  {
    var ring, order := InsertAll([], PointsOf(FLAT, 5), 0), [Registration(5, 0)];
    RingedEmpty(FLAT);
    RingedAdd(FLAT, [], [], order[0]);
    assert [] + order == order;
    forall e | e in ring
      ensures e.key == 0
    {
      var i := EntryOwner(FLAT, ring, order, e);
    }
    NoAnswer(ring, FLAT.width, 1);
  }

  // ---- why the points have to be distinct ----

  lemma TwoValues(ps: seq<Key>, qs: seq<Key>, a: Wrapper, b: Wrapper, e: Entry)
    requires e in InsertAll(InsertAll([], ps, a), qs, b)
    ensures e.value == a || e.value == b
  {
    var one := InsertAll([], ps, a);
    StackInsertAll([], ps, a, e.key);
    StackInsertAll(one, qs, b, e.key);
    StackOf(InsertAll(one, qs, b), e.key);
    assert Entry(e.key, e.value) == e;
  }

  /** The state after adding clients a and b and removing a. */
  function AddAddRemove(c: Config, a: ClientKey, b: ClientKey): (s: State)
    requires c.max > 1 && a != b
  {
    DropClient(AddClient(AddClient(Init(c), c, a, 0), c, b, 1), c, a)
  }

  /** Removal goes by point, not by client: after clients a and b have been added and a has been removed, the ring
      refers to clients that are still registered only if, and only if, a and b have no point in common. */
  lemma CollisionsLeaveStaleClients(c: Config, a: ClientKey, b: ClientKey)
    requires c.max > 1 && a != b
    ensures var s := AddAddRemove(c, a, b);
            s.fiber == Stopping(0, Removed) && s.dict == map[b := 1]
            && ((forall e :: e in s.ring ==> InDict(s.dict, e.value)) <==> Apart(c, a, b))
  {
    var pa, pb := PointsOf(c, a), PointsOf(c, b);
    var s := AddAddRemove(c, a, b);
    var both := InsertAll(InsertAll([], pa, 0), pb, 1);
    assert s.ring == RemoveAll(both, pa);
    assert s.dict == map[b := 1];
    RemovalPurges(pa, pb, 0, 1);
    forall e | e in s.ring
      ensures InDict(s.dict, e.value) <==> e.value != 0
    {
      TwoValues(pa, pb, 0, 1, e);
      assert s.dict[b] == 1;
    }
  }
}
