/** The consistent hash of mrpc_consistent_hash.c as a value: a sorted list of points on a circle of 2^32 keys,
    cut into buckets of equal width. The hash function is a parameter. */
module Ring {
  import opened Arithmetic
  import opened Wrappers

  const KEYS: nat := 0x1_0000_0000

  type Key = k: nat | k < KEYS

  /** The client a point stands for. */
  type Value = nat

  datatype Entry = Entry(key: Key, value: Value)

  predicate Sorted(l: seq<Entry>) {
    forall i, j :: 0 <= i < j < |l| ==> l[i].key <= l[j].key
  }

  // ---- one list ----

  /** Puts an entry before the first one whose key is not smaller. */
  function Insert(l: seq<Entry>, e: Entry): (l': seq<Entry>)
    ensures |l'| == |l| + 1
    ensures forall x :: x in l' <==> x == e || x in l
  {
    if l == [] || l[0].key >= e.key then [e] + l else [l[0]] + Insert(l[1..], e)
  }

  /** Removes the first entry with a key, whatever its value. */
  function Remove(l: seq<Entry>, k: Key): (l': seq<Entry>)
    ensures forall x :: x in l' ==> x in l
    ensures |l'| == if HasKey(l, k) then |l| - 1 else |l|
  {
    if l == [] then [] else if l[0].key == k then l[1..] else [l[0]] + Remove(l[1..], k)
  }

  predicate HasKey(l: seq<Entry>, k: Key) {
    exists e :: e in l && e.key == k
  }

  /** The first entry whose key is at least h. */
  function FirstFrom(l: seq<Entry>, h: Key): Option<Entry> {
    if l == [] then None else if l[0].key >= h then Some(l[0]) else FirstFrom(l[1..], h)
  }

  lemma {:induction false} InsertSorted(l: seq<Entry>, e: Entry)
    requires Sorted(l)
    ensures Sorted(Insert(l, e))
  {
    if l != [] && l[0].key < e.key {
      InsertSorted(l[1..], e);
      var l' := Insert(l[1..], e);
      forall x | x in l' ensures l[0].key <= x.key {
        if x != e { var i :| 0 <= i < |l[1..]| && l[1..][i] == x; assert l[i + 1] == x; }
      }
    }
  }

  lemma {:induction false} RemoveSorted(l: seq<Entry>, k: Key)
    requires Sorted(l)
    ensures Sorted(Remove(l, k))
  {
    if l != [] && l[0].key != k {
      RemoveSorted(l[1..], k);
      forall x | x in Remove(l[1..], k) ensures l[0].key <= x.key {
        var i :| 0 <= i < |l[1..]| && l[1..][i] == x; assert l[i + 1] == x;
      }
    }
  }

  // ---- a list as a stack of values for each key ----

  /** The values at key k, in list order: adding pushes, removing pops. */
  function Stack(l: seq<Entry>, k: Key): seq<Value> {
    if l == [] then [] else (if l[0].key == k then [l[0].value] else []) + Stack(l[1..], k)
  }

  lemma {:induction false} StackOf(l: seq<Entry>, k: Key)
    ensures HasKey(l, k) <==> Stack(l, k) != []
    ensures forall v :: v in Stack(l, k) <==> Entry(k, v) in l
  {
    if l != [] {
      StackOf(l[1..], k);
      assert forall x :: x in l <==> x == l[0] || x in l[1..];
    }
  }

  lemma {:induction false} StackInsert(l: seq<Entry>, e: Entry, k: Key)
    ensures Stack(Insert(l, e), k) == (if e.key == k then [e.value] else []) + Stack(l, k)
  {
    if l != [] && l[0].key < e.key {
      StackInsert(l[1..], e, k);
      assert Insert(l, e)[1..] == Insert(l[1..], e);
    } else {
      assert Insert(l, e)[1..] == l;
    }
  }

  lemma {:induction false} StackRemove(l: seq<Entry>, r: Key, k: Key)
    ensures Stack(Remove(l, r), k) == if r == k && Stack(l, k) != [] then Stack(l, k)[1..] else Stack(l, k)
  {
    if l != [] && l[0].key != r {
      StackRemove(l[1..], r, k);
    }
  }

  /** Sorted lists with the same stacks are equal. */
  lemma {:induction false} StacksDetermine(l: seq<Entry>, m: seq<Entry>)
    requires Sorted(l) && Sorted(m) && forall k: Key :: Stack(l, k) == Stack(m, k)
    ensures l == m
    decreases |l|
  {
    if l == [] {
      if m != [] {
        HeadStack(m);
        assert false;
      }
    } else {
      var a := l[0].key;
      assert Stack(l, a) != [];
      assert m != [];
      var b := m[0].key;
      assert Stack(m, b) != [];
      HeadKeys(l, b);
      HeadKeys(m, a);
      assert a == b;
      assert Stack(l, a)[0] == l[0].value && Stack(m, a)[0] == m[0].value;
      forall k: Key ensures Stack(l[1..], k) == Stack(m[1..], k) {
        var n := if k == a then 1 else 0;
        assert Stack(l[1..], k) == Stack(l, k)[n..] && Stack(m[1..], k) == Stack(m, k)[n..];
      }
      StacksDetermine(l[1..], m[1..]);
    }
  }

  lemma HeadStack(l: seq<Entry>)
    requires l != []
    ensures Stack(l, l[0].key) != []
  {
  }

  lemma HeadKeys(l: seq<Entry>, k: Key)
    requires Sorted(l) && l != [] && Stack(l, k) != []
    ensures l[0].key <= k
  {
    StackOf(l, k);
  }

  // ---- the points of a client ----

  /** The points of a client: its key hashed with the start values 0, 1, ... */
  type Hash = (nat, Key) -> Key

  function Points(hash: Hash, key: Key, n: nat): (ps: seq<Key>)
    ensures |ps| == n && forall i :: 0 <= i < n ==> ps[i] == hash(i, key)
  {
    seq(n, i requires 0 <= i < n => hash(i, key))
  }

  function InsertAll(l: seq<Entry>, ps: seq<Key>, v: Value): (l': seq<Entry>)
    ensures |l'| == |l| + |ps|
    decreases |ps|
  {
    if ps == [] then l else InsertAll(Insert(l, Entry(ps[0], v)), ps[1..], v)
  }

  function RemoveAll(l: seq<Entry>, ps: seq<Key>): (l': seq<Entry>)
    ensures forall x :: x in l' ==> x in l
    decreases |ps|
  {
    if ps == [] then l else RemoveAll(Remove(l, ps[0]), ps[1..])
  }

  function Count(ps: seq<Key>, k: Key): nat {
    if ps == [] then 0 else (if ps[0] == k then 1 else 0) + Count(ps[1..], k)
  }

  function Repeat(v: Value, n: nat): (s: seq<Value>)
    ensures |s| == n && forall x :: x in s ==> x == v
  {
    seq(n, _ => v)
  }

  lemma {:induction false} CountPositive(ps: seq<Key>, k: Key)
    ensures Count(ps, k) > 0 <==> k in ps
  {
    if ps != [] {
      CountPositive(ps[1..], k);
      assert k in ps <==> k == ps[0] || k in ps[1..];
    }
  }

  /** Adding a client pushes its value once for each of its points. */
  lemma {:induction false} StackInsertAll(l: seq<Entry>, ps: seq<Key>, v: Value, k: Key)
    requires Sorted(l)
    ensures Sorted(InsertAll(l, ps, v))
    ensures Stack(InsertAll(l, ps, v), k) == Repeat(v, Count(ps, k)) + Stack(l, k)
    decreases |ps|
  {
    if ps != [] {
      var l' := Insert(l, Entry(ps[0], v));
      InsertSorted(l, Entry(ps[0], v));
      StackInsert(l, Entry(ps[0], v), k);
      StackInsertAll(l', ps[1..], v, k);
    }
  }

  /** Removing a client pops once for each of its points, whoever's value is on top. */
  lemma {:induction false} StackRemoveAll(l: seq<Entry>, ps: seq<Key>, k: Key)
    requires Sorted(l) && Count(ps, k) <= |Stack(l, k)|
    ensures Sorted(RemoveAll(l, ps))
    ensures Stack(RemoveAll(l, ps), k) == Stack(l, k)[Count(ps, k)..]
    decreases |ps|
  {
    if ps != [] {
      RemoveSorted(l, ps[0]);
      StackRemove(l, ps[0], k);
      StackRemoveAll(Remove(l, ps[0]), ps[1..], k);
    }
  }

  /** The assertions of a removal: each point is there when its turn comes. */
  predicate AllFound(l: seq<Entry>, ps: seq<Key>)
    decreases |ps|
  {
    ps != [] ==> HasKey(l, ps[0]) && AllFound(Remove(l, ps[0]), ps[1..])
  }

  ghost predicate HighEnough(l: seq<Entry>, ps: seq<Key>) {
    forall k: Key :: Count(ps, k) <= |Stack(l, k)|
  }

  lemma HighEnoughStep(l: seq<Entry>, ps: seq<Key>)
    requires ps != []
    ensures HighEnough(l, ps) <==> HasKey(l, ps[0]) && HighEnough(Remove(l, ps[0]), ps[1..])
  {
    var l', p := Remove(l, ps[0]), ps[0];
    StackOf(l, p);
    if HasKey(l, p) {
      forall k: Key
        ensures Count(ps, k) - Count(ps[1..], k) == |Stack(l, k)| - |Stack(l', k)|
      {
        StackRemove(l, p, k);
      }
      if HighEnough(l, ps) {
        forall k: Key ensures Count(ps[1..], k) <= |Stack(l', k)| { assert Count(ps, k) <= |Stack(l, k)|; }
      } else {
        var k: Key :| Count(ps, k) > |Stack(l, k)|;
        assert Count(ps[1..], k) > |Stack(l', k)|;
      }
    } else {
      assert Count(ps, p) > |Stack(l, p)|;
    }
  }

  /** They hold exactly when no point occurs in the list less often than the client has it; the size then drops by
      one for each point. */
  lemma {:induction false} AllFoundIff(l: seq<Entry>, ps: seq<Key>)
    ensures AllFound(l, ps) <==> HighEnough(l, ps)
    ensures AllFound(l, ps) ==> |RemoveAll(l, ps)| == |l| - |ps|
    decreases |ps|
  {
    if ps != [] {
      AllFoundIff(Remove(l, ps[0]), ps[1..]);
      HighEnoughStep(l, ps);
    }
  }

  /** Adding a client and removing it at once restores the list exactly, even where its points collide with each
      other or with points already there. */
  lemma AddThenRemove(l: seq<Entry>, ps: seq<Key>, v: Value)
    requires Sorted(l)
    ensures RemoveAll(InsertAll(l, ps, v), ps) == l
  {
    var m := InsertAll(l, ps, v);
    StackInsertAll(l, ps, v, 0);
    forall k: Key
      ensures Sorted(RemoveAll(m, ps)) && Stack(RemoveAll(m, ps), k) == Stack(l, k)
    {
      StackInsertAll(l, ps, v, k);
      StackRemoveAll(m, ps, k);
      assert (Repeat(v, Count(ps, k)) + Stack(l, k))[Count(ps, k)..] == Stack(l, k);
    }
    StackRemoveAll(m, ps, 0);
    StacksDetermine(RemoveAll(m, ps), l);
  }

  /** With two clients in the ring, removing the first by its points leaves none of its entries behind exactly
      when the two clients have no point in common: removal pops the entry added last, which is then not its own. */
  lemma RemovalPurges(ps: seq<Key>, qs: seq<Key>, a: Value, b: Value)
    requires a != b
    ensures var l := RemoveAll(InsertAll(InsertAll([], ps, a), qs, b), ps);
            (forall e :: e in l ==> e.value != a) <==> (forall k :: k in ps ==> k !in qs)
  {
    var both := InsertAll(InsertAll([], ps, a), qs, b);
    var l := RemoveAll(both, ps);
    forall k: Key
      ensures Stack(l, k) == (Repeat(b, Count(qs, k)) + Repeat(a, Count(ps, k)))[Count(ps, k)..]
    {
      StackInsertAll([], ps, a, k);
      StackInsertAll(InsertAll([], ps, a), qs, b, k);
      assert Repeat(a, Count(ps, k)) + [] == Repeat(a, Count(ps, k));
      StackRemoveAll(both, ps, k);
    }
    forall k | k in ps && k in qs
      ensures Entry(k, a) in l
    {
      CountPositive(ps, k);
      CountPositive(qs, k);
      StackOf(l, k);
      var s := Stack(l, k);
      assert s[|s| - 1] == a;
    }
    if forall k :: k in ps ==> k !in qs {
      forall e | e in l
        ensures e.value != a
      {
        CountPositive(ps, e.key);
        CountPositive(qs, e.key);
        StackOf(l, e.key);
        assert e == Entry(e.key, e.value);
      }
    }
  }

  // ---- looking up ----

  /** The value that serves hash h on a ring cut into buckets of the given width: the first entry from h on; if
      there is none, the very first entry, provided it lies in a bucket before that of h. */
  function Answer(l: seq<Entry>, width: nat, h: Key): Option<Value>
    requires width > 0
  {
    match FirstFrom(l, h)
    case Some(e) => Some(e.value)
    case None => if l != [] && l[0].key / width < h / width then Some(l[0].value) else None
  }

  lemma {:induction false} FirstFromIs(l: seq<Entry>, h: Key)
    ensures FirstFrom(l, h).None? <==> forall e :: e in l ==> e.key < h
    ensures FirstFrom(l, h).Some? ==>
              exists i :: 0 <= i < |l| && FirstFrom(l, h) == Some(l[i]) && l[i].key >= h
                          && forall j :: 0 <= j < i ==> l[j].key < h
  {
    if l != [] {
      assert forall e :: e in l <==> e == l[0] || e in l[1..];
      if l[0].key >= h {
        assert FirstFrom(l, h) == Some(l[0]);
      } else {
        FirstFromIs(l[1..], h);
        if FirstFrom(l, h).Some? {
          var i :| 0 <= i < |l[1..]| && FirstFrom(l[1..], h) == Some(l[1..][i]) && l[1..][i].key >= h
                   && forall j :: 0 <= j < i ==> l[1..][j].key < h;
          forall j | 0 <= j < i + 1 ensures l[j].key < h { if j > 0 { assert l[j] == l[1..][j - 1]; } }
          assert l[i + 1] == l[1..][i];
        }
      }
    }
  }

  /** The lookup has no answer exactly when every entry lies in the bucket of h with a smaller key. */
  lemma NoAnswer(l: seq<Entry>, width: nat, h: Key)
    requires Sorted(l) && width > 0
    ensures Answer(l, width, h) == None <==> forall e :: e in l ==> e.key < h && e.key / width == h / width
  {
    FirstFromIs(l, h);
    if l != [] {
      forall e | e in l && e.key < h
        ensures l[0].key / width <= e.key / width <= h / width
      {
        DivMono(l[0].key, e.key, width);
        DivMono(e.key, h, width);
      }
    }
  }

  /** Entry i serves hash h: of the entries with keys from h on it has the least key, and is the front one of those with
      that key; if there are none, it is the first entry, which has the least key of all. */
  ghost predicate ServedBy(l: seq<Entry>, h: Key, i: nat) {
    && i < |l|
    && if exists e :: e in l && e.key >= h then
         l[i].key >= h && forall j :: 0 <= j < |l| && l[j].key >= h ==>
                                        l[i].key < l[j].key || (l[i].key == l[j].key && i <= j)
       else i == 0
  }

  /** A lookup that has an answer gives the value of the one entry that serves the hash. */
  lemma AnswerIs(l: seq<Entry>, width: nat, h: Key) returns (i: nat)
    requires Sorted(l) && width > 0 && Answer(l, width, h).Some?
    ensures ServedBy(l, h, i) && Answer(l, width, h) == Some(l[i].value)
    ensures forall j :: ServedBy(l, h, j) ==> j == i
  {
    FirstFromIs(l, h);
    if FirstFrom(l, h).Some? {
      i :| 0 <= i < |l| && FirstFrom(l, h) == Some(l[i]) && l[i].key >= h && forall j :: 0 <= j < i ==> l[j].key < h;
      assert l[i] in l;
    } else {
      i := 0;
    }
  }

  lemma DivMono(a: nat, b: nat, w: nat)
    requires a <= b && w > 0
    ensures a / w <= b / w
  {
    var qa, qb := a / w, b / w;
    if qa > qb {
      MulMono(qb + 1, qa, w);
      assert false;
    }
  }

  lemma {:induction false} FirstFromInsert(l: seq<Entry>, e: Entry, h: Key)
    requires Sorted(l)
    ensures FirstFrom(Insert(l, e), h) == FirstFrom(l, h) || FirstFrom(Insert(l, e), h) == Some(e)
  {
    if l != [] && l[0].key < e.key {
      FirstFromInsert(l[1..], e, h);
    } else {
      assert ([e] + l)[1..] == l;
    }
  }

  /** Adding one point changes an answered lookup only to the new value. */
  lemma InsertDisruption(l: seq<Entry>, e: Entry, width: nat, h: Key)
    requires Sorted(l) && width > 0 && Answer(l, width, h).Some?
    ensures Answer(Insert(l, e), width, h) in {Answer(l, width, h), Some(e.value)}
  {
    FirstFromInsert(l, e, h);
    if FirstFrom(l, h).None? && l[0].key >= e.key {
      DivMono(e.key, l[0].key, width);
    }
    FirstFromIs(l, h);
    FirstFromIs(Insert(l, e), h);
  }

  /** Adding a client: every lookup that had an answer keeps it or gets the new client. */
  lemma {:induction false} AddDisruption(l: seq<Entry>, ps: seq<Key>, v: Value, width: nat, h: Key)
    requires Sorted(l) && width > 0 && Answer(l, width, h).Some?
    ensures Answer(InsertAll(l, ps, v), width, h) in {Answer(l, width, h), Some(v)}
    decreases |ps|
  {
    if ps != [] {
      InsertSorted(l, Entry(ps[0], v));
      InsertDisruption(l, Entry(ps[0], v), width, h);
      AddDisruption(Insert(l, Entry(ps[0], v)), ps[1..], v, width, h);
    }
  }

  lemma {:induction false} FirstFromRemove(l: seq<Entry>, k: Key, v: Value, h: Key)
    requires FirstFrom(l, h).Some? && FirstFrom(l, h).value.value != v
    requires Stack(l, k) != [] ==> Stack(l, k)[0] == v
    ensures FirstFrom(Remove(l, k), h) == FirstFrom(l, h)
  {
    if l[0].key < h && l[0].key != k {
      FirstFromRemove(l[1..], k, v, h);
    }
  }

  /** Removing one point at which v's value is on top keeps every lookup v did not answer. */
  lemma RemoveDisruption(l: seq<Entry>, k: Key, v: Value, width: nat, h: Key)
    requires width > 0 && Answer(l, width, h).Some? && Answer(l, width, h) != Some(v)
    requires Stack(l, k) != [] ==> Stack(l, k)[0] == v
    ensures Answer(Remove(l, k), width, h) == Answer(l, width, h)
  {
    if FirstFrom(l, h).Some? {
      FirstFromRemove(l, k, v, h);
    } else {
      FirstFromIs(l, h);
      FirstFromIs(Remove(l, k), h);
    }
  }

  /** At every key, what removing these points pops is v's. */
  ghost predicate OnTop(l: seq<Entry>, ps: seq<Key>, v: Value) {
    forall k: Key, t :: 0 <= t < Count(ps, k) && t < |Stack(l, k)| ==> Stack(l, k)[t] == v
  }

  lemma OnTopStep(l: seq<Entry>, ps: seq<Key>, v: Value)
    requires ps != [] && OnTop(l, ps, v)
    ensures OnTop(Remove(l, ps[0]), ps[1..], v)
    ensures Stack(l, ps[0]) != [] ==> Stack(l, ps[0])[0] == v
  {
    var l', p := Remove(l, ps[0]), ps[0];
    assert Count(ps, p) > 0;
    forall k: Key, t | 0 <= t < Count(ps[1..], k) && t < |Stack(l', k)|
      ensures Stack(l', k)[t] == v
    {
      StackRemove(l, p, k);
      if p == k {
        assert Count(ps, k) == 1 + Count(ps[1..], k);
        assert Stack(l', k)[t] == Stack(l, k)[t + 1];
      } else {
        assert Stack(l', k)[t] == Stack(l, k)[t];
      }
    }
  }

  /** Removing a client whose values are on top at all its points: every lookup it did not answer keeps its answer. */
  lemma {:induction false} RemovalDisruption(l: seq<Entry>, ps: seq<Key>, v: Value, width: nat, h: Key)
    requires width > 0 && Answer(l, width, h).Some? && Answer(l, width, h) != Some(v) && OnTop(l, ps, v)
    ensures Answer(RemoveAll(l, ps), width, h) == Answer(l, width, h)
    decreases |ps|
  {
    if ps != [] {
      OnTopStep(l, ps, v);
      RemoveDisruption(l, ps[0], v, width, h);
      RemovalDisruption(Remove(l, ps[0]), ps[1..], v, width, h);
    }
  }
}
