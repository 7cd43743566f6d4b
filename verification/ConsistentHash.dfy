/** The consistent hash of mrpc_consistent_hash.c as it is stored: an array of buckets, each a linked list of
    entries sorted by key. It is proved to behave as the plain sorted list of module Ring. */
module ConsistentHash {
  import opened Arithmetic
  import opened Wrappers
  import opened Ring

  // ---- buckets as values ----

  function Flat(bs: seq<seq<Entry>>): seq<Entry> {
    if bs == [] then [] else bs[0] + Flat(bs[1..])
  }

  /** Every bucket is sorted and holds only keys that belong to it. */
  ghost predicate Bucketed(bs: seq<seq<Entry>>, width: nat) {
    && width > 0 && |bs| * width == KEYS
    && (forall b :: 0 <= b < |bs| ==> Sorted(bs[b]))
    && (forall b, e :: 0 <= b < |bs| && e in bs[b] ==> e.key / width == b)
  }

  /** The loop of get_entry: n buckets are still to be visited, from bucket b, for an entry from key on. */
  function Scan(bs: seq<seq<Entry>>, b: nat, key: Key, n: nat): Option<Entry>
    requires b < |bs|
    decreases n
  {
    if n == 0 then None
    else if FirstFrom(bs[b], key).Some? then FirstFrom(bs[b], key)
    else if b + 1 == |bs| then Scan(bs, 0, 0, n - 1)
    else Scan(bs, b + 1, key, n - 1)
  }

  lemma BucketBound(key: Key, count: nat, width: nat)
    requires width > 0 && count * width == KEYS
    ensures key / width < count
  {
    if key / width >= count {
      MulMono(count, key / width, width);
      assert false;
    }
  }

  lemma {:induction false} FlatSplit(bs: seq<seq<Entry>>, k: nat)
    requires k <= |bs|
    ensures Flat(bs) == Flat(bs[..k]) + Flat(bs[k..])
  {
    if k > 0 {
      FlatSplit(bs[1..], k - 1);
      assert bs[..k][1..] == bs[1..][..k - 1] && bs[k..] == bs[1..][k - 1..];
    }
  }

  lemma FlatAround(bs: seq<seq<Entry>>, b: nat, x: seq<Entry>)
    requires b < |bs|
    ensures Flat(bs[b := x]) == Flat(bs[..b]) + x + Flat(bs[b + 1..])
  {
    var bs' := bs[b := x];
    FlatSplit(bs', b);
    assert bs'[..b] == bs[..b] && bs'[b..][0] == x && bs'[b..][1..] == bs[b + 1..];
  }

  lemma {:induction false} InFlat(bs: seq<seq<Entry>>, e: Entry)
    requires e in Flat(bs)
    ensures exists b :: 0 <= b < |bs| && e in bs[b]
  {
    if e !in bs[0] {
      InFlat(bs[1..], e);
      var b :| 0 <= b < |bs[1..]| && e in bs[1..][b];
      assert e in bs[b + 1];
    }
  }

  lemma FlatFrom(bs: seq<seq<Entry>>, i: nat)
    requires i < |bs|
    ensures Flat(bs[i..]) == bs[i] + Flat(bs[i + 1..])
  {
    assert bs[i..][1..] == bs[i + 1..];
  }

  /** The keys of a run of buckets lie in the range the run covers. */
  lemma FlatRange(bs: seq<seq<Entry>>, width: nat, i: nat, j: nat, e: Entry)
    requires Bucketed(bs, width) && i <= j <= |bs| && e in Flat(bs[i..j])
    ensures i <= e.key / width < j
  {
    InFlat(bs[i..j], e);
    var b :| 0 <= b < |bs[i..j]| && e in bs[i..j][b];
    assert e in bs[i + b];
  }

  lemma SmallerBucket(a: Key, b: Key, width: nat)
    requires width > 0 && a / width < b / width
    ensures a < b
  {
    if b <= a {
      DivMono(b, a, width);
      assert false;
    }
  }

  lemma {:induction false} SortedConcat(l: seq<Entry>, m: seq<Entry>)
    requires Sorted(l) && Sorted(m) && forall x, y :: x in l && y in m ==> x.key <= y.key
    ensures Sorted(l + m)
  {
    var c := l + m;
    forall i, j | 0 <= i < j < |c|
      ensures c[i].key <= c[j].key
    {
      if i < |l| <= j { assert c[i] in l && c[j] in m; }
    }
  }

  /** The concatenation of the buckets is sorted. */
  lemma {:induction false} FlatSorted(bs: seq<seq<Entry>>, width: nat, i: nat)
    requires Bucketed(bs, width) && i <= |bs|
    ensures Sorted(Flat(bs[i..]))
    decreases |bs| - i
  {
    if i < |bs| {
      FlatSorted(bs, width, i + 1);
      assert bs[i..][1..] == bs[i + 1..];
      forall x, y | x in bs[i] && y in Flat(bs[i + 1..])
        ensures x.key <= y.key
      {
        assert bs[i + 1..|bs|] == bs[i + 1..];
        FlatRange(bs, width, i + 1, |bs|, y);
        SmallerBucket(x.key, y.key, width);
      }
      SortedConcat(bs[i], Flat(bs[i + 1..]));
    }
  }

  // ---- adding and removing in a bucket is adding and removing in the whole list ----

  lemma {:induction false} InsertAfter(a: seq<Entry>, l: seq<Entry>, e: Entry)
    requires forall x :: x in a ==> x.key < e.key
    ensures Insert(a + l, e) == a + Insert(l, e)
  {
    if a == [] {
      assert a + l == l;
    } else {
      assert (a + l)[1..] == a[1..] + l;
      InsertAfter(a[1..], l, e);
    }
  }

  lemma {:induction false} InsertBefore(l: seq<Entry>, c: seq<Entry>, e: Entry)
    requires forall x :: x in c ==> x.key >= e.key
    ensures Insert(l + c, e) == Insert(l, e) + c
  {
    if l == [] {
      assert l + c == c;
    } else if l[0].key < e.key {
      assert (l + c)[1..] == l[1..] + c;
      InsertBefore(l[1..], c, e);
    }
  }

  lemma {:induction false} RemoveAfter(a: seq<Entry>, l: seq<Entry>, k: Key)
    requires forall x :: x in a ==> x.key != k
    ensures Remove(a + l, k) == a + Remove(l, k)
  {
    if a == [] {
      assert a + l == l;
    } else {
      assert (a + l)[1..] == a[1..] + l;
      RemoveAfter(a[1..], l, k);
    }
  }

  lemma {:induction false} RemoveBefore(l: seq<Entry>, c: seq<Entry>, k: Key)
    requires forall x :: x in c ==> x.key != k
    ensures Remove(l + c, k) == Remove(l, k) + c
  {
    if l == [] {
      assert l + c == c;
      if c != [] { RemoveBefore(l, c[1..], k); assert [] + c[1..] == c[1..]; }
    } else if l[0].key != k {
      assert (l + c)[1..] == l[1..] + c;
      RemoveBefore(l[1..], c, k);
    }
  }

  lemma InsertMiddle(a: seq<Entry>, l: seq<Entry>, c: seq<Entry>, e: Entry)
    requires forall x :: x in a ==> x.key < e.key
    requires forall x :: x in c ==> x.key >= e.key
    ensures Insert(a + l + c, e) == a + Insert(l, e) + c
  {
    assert a + l + c == a + (l + c);
    InsertAfter(a, l + c, e);
    InsertBefore(l, c, e);
    assert a + (Insert(l, e) + c) == a + Insert(l, e) + c;
  }

  lemma RemoveMiddle(a: seq<Entry>, l: seq<Entry>, c: seq<Entry>, k: Key)
    requires forall x :: x in a ==> x.key != k
    requires forall x :: x in c ==> x.key != k
    ensures Remove(a + l + c, k) == a + Remove(l, k) + c
    ensures HasKey(a + l + c, k) <==> HasKey(l, k)
  {
    assert a + l + c == a + (l + c);
    RemoveAfter(a, l + c, k);
    RemoveBefore(l, c, k);
    assert a + (Remove(l, k) + c) == a + Remove(l, k) + c;
    assert forall x :: x in a + l + c <==> x in a || x in l || x in c;
  }

  lemma LowKeys(bs: seq<seq<Entry>>, width: nat, key: Key)
    requires Bucketed(bs, width) && key / width < |bs|
    ensures forall x :: x in Flat(bs[..key / width]) ==> x.key < key
  {
    var b := key / width;
    assert bs[0..b] == bs[..b];
    forall x | x in Flat(bs[..b]) ensures x.key < key {
      FlatRange(bs, width, 0, b, x);
      SmallerBucket(x.key, key, width);
    }
  }

  lemma HighKeys(bs: seq<seq<Entry>>, width: nat, key: Key)
    requires Bucketed(bs, width) && key / width < |bs|
    ensures forall x :: x in Flat(bs[key / width + 1..]) ==> x.key > key
  {
    var b := key / width;
    assert bs[b + 1..|bs|] == bs[b + 1..];
    forall x | x in Flat(bs[b + 1..]) ensures x.key > key {
      FlatRange(bs, width, b + 1, |bs|, x);
      SmallerBucket(key, x.key, width);
    }
  }

  /** The whole list around the bucket of a key. */
  lemma AroundKey(bs: seq<seq<Entry>>, width: nat, key: Key)
    requires Bucketed(bs, width)
    ensures var b := key / width;
            && b < |bs| && Flat(bs) == Flat(bs[..b]) + bs[b] + Flat(bs[b + 1..])
            && (forall x :: x in Flat(bs[..b]) ==> x.key < key)
            && (forall x :: x in Flat(bs[b + 1..]) ==> x.key > key)
  {
    BucketBound(key, |bs|, width);
    var b := key / width;
    FlatAround(bs, b, bs[b]);
    assert bs[b := bs[b]] == bs;
    LowKeys(bs, width, key);
    HighKeys(bs, width, key);
  }

  lemma BucketedUpdate(bs: seq<seq<Entry>>, width: nat, b: nat, l: seq<Entry>)
    requires Bucketed(bs, width) && b < |bs| && Sorted(l) && forall e :: e in l ==> e.key / width == b
    ensures Bucketed(bs[b := l], width)
  {
  }

  function Added(bs: seq<seq<Entry>>, width: nat, e: Entry): seq<seq<Entry>>
    requires width > 0
  {
    var b := e.key / width;
    if b < |bs| then bs[b := Insert(bs[b], e)] else bs
  }

  function Removed(bs: seq<seq<Entry>>, width: nat, key: Key): seq<seq<Entry>>
    requires width > 0
  {
    var b := key / width;
    if b < |bs| then bs[b := Remove(bs[b], key)] else bs
  }

  /** Adding to a bucket adds to the whole list, and keeps every bucket sorted and its own. */
  lemma AddRefines(bs: seq<seq<Entry>>, width: nat, e: Entry)
    requires Bucketed(bs, width)
    ensures Bucketed(Added(bs, width, e), width)
    ensures Flat(Added(bs, width, e)) == Insert(Flat(bs), e)
  {
    AroundKey(bs, width, e.key);
    var b := e.key / width;
    InsertSorted(bs[b], e);
    BucketedUpdate(bs, width, b, Insert(bs[b], e));
    FlatAround(bs, b, Insert(bs[b], e));
    InsertMiddle(Flat(bs[..b]), bs[b], Flat(bs[b + 1..]), e);
  }

  /** Removing from a bucket removes from the whole list, and keeps every bucket sorted and its own. */
  lemma RemoveRefines(bs: seq<seq<Entry>>, width: nat, key: Key)
    requires Bucketed(bs, width)
    ensures Bucketed(Removed(bs, width, key), width)
    ensures Flat(Removed(bs, width, key)) == Remove(Flat(bs), key)
    ensures HasKey(Flat(bs), key) <==> key / width < |bs| && HasKey(bs[key / width], key)
  {
    AroundKey(bs, width, key);
    var b := key / width;
    RemoveSorted(bs[b], key);
    BucketedUpdate(bs, width, b, Remove(bs[b], key));
    FlatAround(bs, b, Remove(bs[b], key));
    RemoveMiddle(Flat(bs[..b]), bs[b], Flat(bs[b + 1..]), key);
  }

  /** Buckets with the same concatenation are the same buckets. */
  lemma FlatDetermines(bs: seq<seq<Entry>>, cs: seq<seq<Entry>>, width: nat)
    requires Bucketed(bs, width) && Bucketed(cs, width) && |bs| == |cs| && Flat(bs) == Flat(cs)
    ensures bs == cs
  {
    forall b | 0 <= b < |bs|
      ensures bs[b] == cs[b]
    {
      forall k: Key
        ensures Stack(bs[b], k) == Stack(cs[b], k)
      {
        if k / width == b {
          StackAround(bs, width, k);
          StackAround(cs, width, k);
        } else {
          NoStack(bs[b], k);
          NoStack(cs[b], k);
        }
      }
      StacksDetermine(bs[b], cs[b]);
    }
  }

  lemma NoStack(l: seq<Entry>, k: Key)
    requires forall e :: e in l ==> e.key != k
    ensures Stack(l, k) == []
  {
    StackOf(l, k);
  }

  lemma {:induction false} StackConcat(l: seq<Entry>, m: seq<Entry>, k: Key)
    ensures Stack(l + m, k) == Stack(l, k) + Stack(m, k)
  {
    if l == [] {
      assert l + m == m;
    } else {
      assert (l + m)[1..] == l[1..] + m && (l + m)[0] == l[0];
      StackConcat(l[1..], m, k);
      var head := if l[0].key == k then [l[0].value] else [];
      assert head + (Stack(l[1..], k) + Stack(m, k)) == head + Stack(l[1..], k) + Stack(m, k);
    }
  }

  lemma StackAround(bs: seq<seq<Entry>>, width: nat, k: Key)
    requires Bucketed(bs, width)
    ensures k / width < |bs| && Stack(Flat(bs), k) == Stack(bs[k / width], k)
  {
    AroundKey(bs, width, k);
    var b := k / width;
    StackConcat(Flat(bs[..b]) + bs[b], Flat(bs[b + 1..]), k);
    StackConcat(Flat(bs[..b]), bs[b], k);
    NoStack(Flat(bs[..b]), k);
    NoStack(Flat(bs[b + 1..]), k);
  }

  /** Adding a client and removing it at once: every removal finds its point, and every bucket is restored exactly,
      even where points collide. */
  lemma AddThenRemoveRestores(bs: seq<seq<Entry>>, cs: seq<seq<Entry>>, width: nat, ps: seq<Key>, v: Value)
    requires Bucketed(bs, width) && Bucketed(cs, width) && |bs| == |cs|
    requires Flat(cs) == RemoveAll(InsertAll(Flat(bs), ps, v), ps)
    ensures AllFound(InsertAll(Flat(bs), ps, v), ps)
    ensures cs == bs
  {
    FlatSorted(bs, width, 0);
    assert bs[0..] == bs;
    forall k: Key
      ensures Count(ps, k) <= |Stack(InsertAll(Flat(bs), ps, v), k)|
    {
      StackInsertAll(Flat(bs), ps, v, k);
    }
    AllFoundIff(InsertAll(Flat(bs), ps, v), ps);
    AddThenRemove(Flat(bs), ps, v);
    FlatDetermines(cs, bs, width);
  }

  // ---- the lookup loop ----

  lemma {:induction false} FirstFromConcat(l: seq<Entry>, m: seq<Entry>, h: Key)
    ensures FirstFrom(l + m, h) == if FirstFrom(l, h).Some? then FirstFrom(l, h) else FirstFrom(m, h)
  {
    if l == [] {
      assert l + m == m;
    } else {
      assert (l + m)[1..] == l[1..] + m;
      FirstFromConcat(l[1..], m, h);
    }
  }

  /** From bucket b up to the last one, the loop looks for the first entry from h on; then it starts over at 0. */
  lemma {:induction false} ScanUp(bs: seq<seq<Entry>>, b: nat, h: Key, n: nat)
    requires b < |bs| && n >= |bs| - b
    ensures Scan(bs, b, h, n) ==
            if FirstFrom(Flat(bs[b..]), h).Some? then FirstFrom(Flat(bs[b..]), h)
            else Scan(bs, 0, 0, n - (|bs| - b))
    decreases |bs| - b
  {
    FirstFromConcat(bs[b], Flat(bs[b + 1..]), h);
    assert bs[b..][1..] == bs[b + 1..];
    if b + 1 < |bs| {
      ScanUp(bs, b + 1, h, n - 1);
    } else {
      assert bs[b + 1..] == [];
    }
  }

  /** The second round visits the first n buckets for their very first entry. */
  lemma {:induction false} ScanAgain(bs: seq<seq<Entry>>, b: nat, n: nat)
    requires b + n < |bs|
    ensures Scan(bs, b, 0, n) == FirstFrom(Flat(bs[b..b + n]), 0)
    decreases n
  {
    if n > 0 {
      FirstFromConcat(bs[b], Flat(bs[b + 1..b + n]), 0);
      assert bs[b..b + n][1..] == bs[b + 1..b + n];
      ScanAgain(bs, b + 1, n - 1);
    }
  }

  lemma ScanIs(bs: seq<seq<Entry>>, b: nat, h: Key)
    requires b < |bs|
    ensures Scan(bs, b, h, |bs|) ==
            if FirstFrom(Flat(bs[b..]), h).Some? then FirstFrom(Flat(bs[b..]), h) else FirstFrom(Flat(bs[..b]), 0)
  {
    ScanUp(bs, b, h, |bs|);
    ScanAgain(bs, 0, b);
    assert bs[0..b] == bs[..b];
  }

  lemma HeadsAround(bs: seq<seq<Entry>>, width: nat, b: nat)
    requires Bucketed(bs, width) && b <= |bs|
    ensures Flat(bs[..b]) != [] ==> Flat(bs[..b])[0].key / width < b
    ensures Flat(bs[b..]) != [] ==> Flat(bs[b..])[0].key / width >= b
  {
    assert bs[0..b] == bs[..b] && bs[b..|bs|] == bs[b..];
    if Flat(bs[..b]) != [] { FlatRange(bs, width, 0, b, Flat(bs[..b])[0]); }
    if Flat(bs[b..]) != [] { FlatRange(bs, width, b, |bs|, Flat(bs[b..])[0]); }
  }

  lemma AnswerWraps(low: seq<Entry>, high: seq<Entry>, width: nat, h: Key)
    requires width > 0 && FirstFrom(low + high, h).None?
    requires low != [] ==> low[0].key / width < h / width
    requires high != [] ==> high[0].key / width >= h / width
    ensures Answer(low + high, width, h) == if low == [] then None else Some(low[0].value)
  {
    if low == [] {
      assert low + high == high;
    }
  }

  lemma HeadFrom(l: seq<Entry>)
    ensures FirstFrom(l, 0) == if l == [] then None else Some(l[0])
  {
  }

  /** Where nothing from h on is left, the first of the buckets before that of h is the very first entry of all. */
  lemma WrapRefines(bs: seq<seq<Entry>>, width: nat, b: nat, h: Key)
    requires Bucketed(bs, width) && b < |bs| && b == h / width && FirstFrom(Flat(bs), h).None?
    ensures var low := FirstFrom(Flat(bs[..b]), 0);
            Answer(Flat(bs), width, h) == if low.Some? then Some(low.value.value) else None
  {
    HeadsAround(bs, width, b);
    FlatSplit(bs, b);
    AnswerWraps(Flat(bs[..b]), Flat(bs[b..]), width, h);
    HeadFrom(Flat(bs[..b]));
  }

  /** From h on, there is nothing in the buckets before that of h. */
  lemma FirstFromHigh(bs: seq<seq<Entry>>, width: nat, h: Key)
    requires Bucketed(bs, width) && h / width < |bs|
    ensures FirstFrom(Flat(bs), h) == FirstFrom(Flat(bs[h / width..]), h)
  {
    var b := h / width;
    FlatSplit(bs, b);
    FirstFromConcat(Flat(bs[..b]), Flat(bs[b..]), h);
    LowKeys(bs, width, h);
    FirstFromIs(Flat(bs[..b]), h);
  }

  /** The lookup of the code on the buckets is the lookup on the plain sorted list. */
  lemma LookupRefines(bs: seq<seq<Entry>>, width: nat, h: Key)
    requires Bucketed(bs, width)
    ensures h / width < |bs|
    ensures var found := Scan(bs, h / width, h, |bs|);
            Answer(Flat(bs), width, h) == if found.Some? then Some(found.value.value) else None
  {
    BucketBound(h, |bs|, width);
    ScanIs(bs, h / width, h);
    FirstFromHigh(bs, width, h);
    if FirstFrom(Flat(bs), h).None? {
      WrapRefines(bs, width, h / width, h);
    }
  }

  /** A lookup on a ring that is not empty runs into the final assertion of get_entry exactly when all entries lie
      in the bucket of the hash, all with smaller keys: that bucket is not visited again after the wrap. */
  lemma LookupGap(bs: seq<seq<Entry>>, width: nat, h: Key)
    requires Bucketed(bs, width) && Flat(bs) != []
    ensures h / width < |bs|
    ensures Scan(bs, h / width, h, |bs|).None? <==>
            forall e :: e in Flat(bs) ==> e.key < h && e.key / width == h / width
  {
    LookupRefines(bs, width, h);
    FlatSorted(bs, width, 0);
    assert bs[0..] == bs;
    NoAnswer(Flat(bs), width, h);
  }

  /** It does: two buckets, one entry with key 0 in the first, and a request whose hash is 1. */
  lemma LookupFails(v: Value)
    ensures var bs := [[Entry(0, v)], []];
            Bucketed(bs, 0x8000_0000) && Flat(bs) == [Entry(0, v)] && Scan(bs, 0, 1, |bs|).None?
  {
    var bs: seq<seq<Entry>> := [[Entry(0, v)], []];
    assert bs[1..] == [[]] && bs[1..][1..] == [];
    assert Flat(bs[1..]) == bs[1..][0] + Flat(bs[1..][1..]) == [];
    assert bs[0][1..] == [];
    assert FirstFrom(bs[0], 1).None? && FirstFrom(bs[1], 1).None?;
    assert Scan(bs, 0, 0, 0).None?;
    assert Scan(bs, 1, 1, 1) == Scan(bs, 0, 0, 0);
    assert Scan(bs, 0, 1, 2) == Scan(bs, 1, 1, 1);
  }

  // ---- the buckets as linked lists ----

  class Node {
    const key: Key
    const value: Value
    var next: Node?

    constructor (key: Key, value: Value, next: Node?)
      ensures this.key == key && this.value == value && this.next == next
    {
      this.key, this.value, this.next := key, value, next;
    }
  }

  function Entries(chain: seq<Node>): (l: seq<Entry>)
    ensures |l| == |chain| && forall i :: 0 <= i < |l| ==> l[i] == Entry(chain[i].key, chain[i].value)
  {
    seq(|chain|, i requires 0 <= i < |chain| => Entry(chain[i].key, chain[i].value))
  }

  function AllEntries(chains: seq<seq<Node>>): (bs: seq<seq<Entry>>)
    ensures |bs| == |chains| && forall b :: 0 <= b < |bs| ==> bs[b] == Entries(chains[b])
  {
    seq(|chains|, b requires 0 <= b < |chains| => Entries(chains[b]))
  }

  /** The node at position k of a chain, null past its end. */
  function At(chain: seq<Node>, k: nat): Node? {
    if k < |chain| then chain[k] else null
  }

  lemma {:induction false} InsertAtIs(l: seq<Entry>, k: nat, e: Entry)
    requires k <= |l| && forall i :: 0 <= i < k ==> l[i].key < e.key
    requires k == |l| || l[k].key >= e.key
    ensures Insert(l, e) == l[..k] + [e] + l[k..]
  {
    if k > 0 {
      InsertAtIs(l[1..], k - 1, e);
      assert [l[0]] + (l[1..][..k - 1] + [e] + l[1..][k - 1..]) == l[..k] + [e] + l[k..];
    }
  }

  lemma {:induction false} RemoveAtIs(l: seq<Entry>, k: nat, key: Key)
    requires k < |l| && l[k].key == key && forall i :: 0 <= i < k ==> l[i].key != key
    ensures Remove(l, key) == l[..k] + l[k + 1..]
  {
    if k > 0 {
      RemoveAtIs(l[1..], k - 1, key);
      assert [l[0]] + (l[1..][..k - 1] + l[1..][k..]) == l[..k] + l[k + 1..];
    }
  }

  class ConsistentHash {
    const buckets: array<Node?>
    const width: nat           // how many keys a bucket covers: 2^(32 - order)
    const uniformFactor: nat
    const hash: Hash
    var entriesCnt: int

    ghost var chains: seq<seq<Node>>  // the nodes of each bucket, in list order
    ghost var nodes: set<Node>        // all nodes ever linked in

    /** The list from head runs through the nodes of the chain, once each, and ends. */
    ghost predicate Linked(head: Node?, chain: seq<Node>)
      reads chain
    {
      && head == At(chain, 0)
      && (forall k :: 0 <= k < |chain| ==> chain[k].next == At(chain, k + 1))
      && (forall i, j :: 0 <= i < j < |chain| ==> chain[i] != chain[j])
    }

    /** The nodes of a bucket are known, and their keys belong to the bucket. */
    ghost predicate AtHome(b: nat, chain: seq<Node>)
      requires width > 0
      reads `nodes
    {
      forall i :: 0 <= i < |chain| ==> chain[i] in nodes && chain[i].key / width == b
    }

    /** Every bucket heads its chain, and a node is only in the bucket of its key. */
    ghost predicate Shape()
      reads `chains, `nodes, buckets, nodes
    {
      && width > 0 && buckets.Length == |chains|
      && forall b :: 0 <= b < |chains| ==> AtHome(b, chains[b]) && Linked(buckets[b], chains[b])
    }

    ghost function Contents(): seq<seq<Entry>>
      reads `chains
    {
      AllEntries(chains)
    }

    ghost predicate Valid()
      reads this, buckets, nodes
    {
      Shape() && Bucketed(Contents(), width) && entriesCnt == |Flat(Contents())|
    }

    /** Walks bucket b up to the first node at or after the key. */
    method FindFrom(b: nat, key: Key) returns (prev: Node?, entry: Node?, ghost k: nat)
      requires Shape() && b < |chains|
      ensures k <= |chains[b]| && entry == At(chains[b], k) && prev == (if k == 0 then null else chains[b][k - 1])
      ensures (forall i :: 0 <= i < k ==> chains[b][i].key < key) && (entry != null ==> entry.key >= key)
    {
      prev, entry, k := null, buckets[b], 0;
      while entry != null && entry.key < key
        invariant k <= |chains[b]| && entry == At(chains[b], k)
        invariant prev == if k == 0 then null else chains[b][k - 1]
        invariant forall i :: 0 <= i < k ==> chains[b][i].key < key
        decreases |chains[b]| - k
      {
        prev, entry, k := entry, entry.next, k + 1;
      }
    }

    /** Walks bucket b up to the first node with the key. */
    method FindKey(b: nat, key: Key) returns (prev: Node?, entry: Node?, ghost k: nat)
      requires Shape() && b < |chains|
      ensures k <= |chains[b]| && entry == At(chains[b], k) && prev == (if k == 0 then null else chains[b][k - 1])
      ensures (forall i :: 0 <= i < k ==> chains[b][i].key != key) && (entry != null ==> entry.key == key)
    {
      prev, entry, k := null, buckets[b], 0;
      while entry != null && entry.key != key
        invariant k <= |chains[b]| && entry == At(chains[b], k)
        invariant prev == if k == 0 then null else chains[b][k - 1]
        invariant forall i :: 0 <= i < k ==> chains[b][i].key != key
        decreases |chains[b]| - k
      {
        prev, entry, k := entry, entry.next, k + 1;
      }
    }

    /** A chain as it is while the link to its position k is not right. */
    ghost predicate LinkedApart(head: Node?, chain: seq<Node>, k: nat)
      reads chain
    {
      && (k > 0 ==> head == At(chain, 0))
      && (forall i :: 0 <= i < |chain| && i != k - 1 ==> chain[i].next == At(chain, i + 1))
      && (forall i, j :: 0 <= i < j < |chain| ==> chain[i] != chain[j])
    }

    ghost predicate LinksTo(head: Node?, chain: seq<Node>, k: nat, target: Node?)
      requires k <= |chain|
      reads chain
    {
      if k == 0 then head == target else chain[k - 1].next == target
    }

    static ghost function With(chain: seq<Node>, k: nat, node: Node): (c: seq<Node>)
      requires k <= |chain|
      ensures |c| == |chain| + 1
      ensures forall i :: 0 <= i < |c| ==> c[i] == if i < k then chain[i] else if i == k then node else chain[i - 1]
    {
      chain[..k] + [node] + chain[k..]
    }

    static ghost function Without(chain: seq<Node>, k: nat): (c: seq<Node>)
      requires k < |chain|
      ensures |c| == |chain| - 1
      ensures forall i :: 0 <= i < |c| ==> c[i] == if i < k then chain[i] else chain[i + 1]
    {
      chain[..k] + chain[k + 1..]
    }

    static lemma WithDistinct(chain: seq<Node>, k: nat, node: Node)
      requires k <= |chain| && node !in chain && forall i, j :: 0 <= i < j < |chain| ==> chain[i] != chain[j]
      ensures var c := With(chain, k, node); forall i, j :: 0 <= i < j < |c| ==> c[i] != c[j]
    {
    }

    /** Linking a node in. */
    lemma LinkedIn(head: Node?, chain: seq<Node>, node: Node, k: nat)
      requires k <= |chain| && LinkedApart(head, chain, k) && LinksTo(head, chain, k, node)
      requires node !in chain && node.next == At(chain, k)
      ensures Linked(head, With(chain, k, node))
    {
      var c := With(chain, k, node);
      assert forall i, j :: 0 <= i < j < |c| ==> c[i] != c[j] by {
        WithDistinct(chain, k, node);
      }
      forall i | 0 <= i < |c|
        ensures c[i].next == At(c, i + 1)
      {
        if i > k { assert c[i] == chain[i - 1]; } else if i < k { assert c[i] == chain[i]; }
      }
    }

    /** Unlinking the node at position k. */
    lemma LinkedOut(head: Node?, chain: seq<Node>, k: nat)
      requires k < |chain| && LinkedApart(head, chain, k) && LinksTo(head, chain, k, At(chain, k + 1))
      ensures Linked(head, Without(chain, k))
    {
      var c := Without(chain, k);
      forall i | 0 <= i < |c|
        ensures c[i].next == At(c, i + 1)
      {
        if i >= k { assert c[i] == chain[i + 1]; } else { assert c[i] == chain[i]; }
      }
    }

    /** The chains of all buckets but one are as they should be. */
    ghost predicate Rest(b: nat)
      reads `chains, `nodes, buckets, nodes
    {
      && width > 0 && buckets.Length == |chains|
      && forall c :: 0 <= c < |chains| && c != b ==> AtHome(c, chains[c]) && Linked(buckets[c], chains[c])
    }

    /** Makes the link to position k of bucket b, in the node before it or in the bucket itself, point to a node. */
    method Link(b: nat, prev: Node?, target: Node?, ghost k: nat)
      requires Shape() && b < |chains| && k <= |chains[b]| && prev == if k == 0 then null else chains[b][k - 1]
      modifies buckets, if prev == null then {} else {prev}
      ensures Rest(b) && AtHome(b, chains[b]) && LinkedApart(buckets[b], chains[b], k)
              && LinksTo(buckets[b], chains[b], k, target)
    {
      assert Linked(buckets[b], chains[b]) && AtHome(b, chains[b]);
      assert forall c, i :: 0 <= c < |chains| && c != b && 0 <= i < |chains[c]| ==> chains[c][i] != prev by {
        assert forall c :: 0 <= c < |chains| ==> AtHome(c, chains[c]);
      }
      if prev == null {
        buckets[b] := target;
      } else {
        prev.next := target;
      }
    }

    ghost method SetChain(b: nat, chain: seq<Node>)
      requires Rest(b) && b < |chains| && AtHome(b, chain) && Linked(buckets[b], chain)
      modifies `chains
      ensures Shape() && chains == old(chains)[b := chain]
    {
      chains := chains[b := chain];
      assert forall c :: 0 <= c < |chains| && c != b ==> chains[c] == old(chains)[c];
    }

    lemma AtHomeWith(b: nat, chain: seq<Node>, k: nat, node: Node)
      requires width > 0 && AtHome(b, chain) && node in nodes && node.key / width == b && k <= |chain|
      ensures AtHome(b, With(chain, k, node))
    {
    }

    lemma AtHomeWithout(b: nat, chain: seq<Node>, k: nat)
      requires width > 0 && AtHome(b, chain) && k < |chain|
      ensures AtHome(b, Without(chain, k))
    {
    }

    /** Links a node in at position k of bucket b. */
    method LinkIn(b: nat, prev: Node?, node: Node, ghost k: nat)
      requires Shape() && b < |chains| && k <= |chains[b]| && prev == if k == 0 then null else chains[b][k - 1]
      requires node in nodes && node !in chains[b] && node.key / width == b && node.next == At(chains[b], k)
      modifies `chains, buckets, if prev == null then {} else {prev}
      ensures Shape() && chains == old(chains)[b := With(old(chains[b]), k, node)]
    {
      Link(b, prev, node, k);
      AtHomeWith(b, chains[b], k, node);
      LinkedIn(buckets[b], chains[b], node, k);
      SetChain(b, With(chains[b], k, node));
    }

    /** Unlinks the node at position k of bucket b. */
    method LinkOut(b: nat, prev: Node?, node: Node, ghost k: nat)
      requires Shape() && b < |chains| && k < |chains[b]|
      requires prev == (if k == 0 then null else chains[b][k - 1]) && node == chains[b][k]
      modifies `chains, buckets, if prev == null then {} else {prev}
      ensures Shape() && chains == old(chains)[b := Without(old(chains[b]), k)]
    {
      assert AtHome(b, chains[b]) && Linked(buckets[b], chains[b]);
      Link(b, prev, node.next, k);
      AtHomeWithout(b, chains[b], k);
      LinkedOut(buckets[b], chains[b], k);
      SetChain(b, Without(chains[b], k));
    }

    // ---- the operations ----

    /** An empty hash with 2^order buckets. */
    constructor (order: nat, uniformFactor: nat, hash: Hash)
      requires 1 <= order <= 20 && 0 < uniformFactor < 0x100
      ensures Valid() && fresh(buckets) && fresh(nodes) && Contents() == seq(Pow2(order), _ => [])
      ensures width == Pow2(32 - order) && this.uniformFactor == uniformFactor && this.hash == hash
    {
      width, entriesCnt := Pow2(32 - order), 0;
      this.uniformFactor, this.hash := uniformFactor, hash;
      buckets := new Node?[Pow2(order)](_ => null);
      chains, nodes := seq(Pow2(order), _ => []), {};
      new;
      Pow2Sum(order, 32 - order);
      Pow2Values();
      assert Contents() == seq(Pow2(order), _ => []);
      FlatEmpty(Contents());
    }

    /** The plain sorted list the buckets hold. */
    ghost function All(): seq<Entry>
      reads `chains
    {
      Flat(Contents())
    }

    method BucketNum(key: Key) returns (b: nat)
      requires width > 0 && |chains| * width == KEYS
      ensures b == key / width && b < |chains|
    {
      BucketBound(key, |chains|, width);
      b := key / width;
    }

    /** The list part of adding an entry. */
    method AddNode(b: nat, key: Key, value: Value)
      requires Shape() && Bucketed(Contents(), width) && b < |chains| && b == key / width
      modifies this`chains, this`nodes, buckets, nodes
      ensures Shape() && Bucketed(Contents(), width) && |chains| == old(|chains|) && fresh(nodes - old(nodes))
      ensures All() == Insert(old(All()), Entry(key, value))
    {
      var prev, entry, k := FindFrom(b, key);
      var node := new Node(key, value, entry);
      AddToNodes(node);
      PutNode(b, prev, node, k);
    }

    method PutNode(b: nat, prev: Node?, node: Node, ghost k: nat)
      requires Shape() && Bucketed(Contents(), width) && b < |chains| && b == node.key / width
      requires k <= |chains[b]| && prev == if k == 0 then null else chains[b][k - 1]
      requires (forall i :: 0 <= i < k ==> chains[b][i].key < node.key) && (k < |chains[b]| ==>
               chains[b][k].key >= node.key)
      requires node in nodes && node !in chains[b] && node.next == At(chains[b], k)
      modifies `chains, buckets, if prev == null then {} else {prev}
      ensures Shape() && Bucketed(Contents(), width) && |chains| == old(|chains|)
      ensures All() == Insert(old(All()), Entry(node.key, node.value))
    {
      ghost var before := chains;
      LinkIn(b, prev, node, k);
      AddEffect(before, chains, width, b, k, node);
    }

    ghost method AddToNodes(node: Node)
      requires Shape()
      modifies this`nodes
      ensures Shape() && nodes == old(nodes) + {node}
    {
      nodes := nodes + {node};
    }

    /** The list part of removing an entry. */
    method RemoveNode(b: nat, key: Key)
      requires Shape() && Bucketed(Contents(), width) && b < |chains| && b == key / width && HasKey(All(), key)
      modifies this`chains, buckets, nodes
      ensures Shape() && Bucketed(Contents(), width) && |chains| == old(|chains|)
      ensures All() == Remove(old(All()), key)
    {
      InItsBucket(chains, width, b, key);
      var prev, entry, k := FindKey(b, key);
      ghost var before := chains;
      EntryFound(chains[b], k, key);
      LinkOut(b, prev, entry, k);
      RemoveEffect(before, chains, width, b, k, key);
    }

    method AddEntryWithKey(key: Key, value: Value)
      requires Valid()
      modifies this, buckets, nodes
      ensures Valid() && fresh(nodes - old(nodes)) && |chains| == old(|chains|)
      ensures All() == Insert(old(All()), Entry(key, value))
    {
      var b := BucketNum(key);
      AddNode(b, key, value);
      entriesCnt := entriesCnt + 1;
    }

    /** The removal asserts that the key is there. */
    method RemoveEntryWithKey(key: Key)
      requires Valid() && HasKey(All(), key)
      modifies this, buckets, nodes
      ensures Valid() && nodes == old(nodes) && |chains| == old(|chains|)
      ensures All() == Remove(old(All()), key)
    {
      var b := BucketNum(key);
      RemoveNode(b, key);
      entriesCnt := entriesCnt - 1;
    }

    /** Adds all points of a client. */
    method AddEntry(key: Key, value: Value)
      requires Valid()
      modifies this, buckets, nodes
      ensures Valid() && fresh(nodes - old(nodes)) && |chains| == old(|chains|)
      ensures All() == InsertAll(old(All()), Points(hash, key, uniformFactor), value)
    {
      ghost var ps := Points(hash, key, uniformFactor);
      var i := 0;
      while i < uniformFactor
        invariant i <= uniformFactor && Valid() && fresh(nodes - old(nodes)) && |chains| == old(|chains|)
        invariant InsertAll(All(), ps[i..], value) == InsertAll(old(All()), ps, value)
      {
        var hashValue := hash(i, key);
        assert ps[i..][0] == hashValue && ps[i..][1..] == ps[i + 1..];
        AddEntryWithKey(hashValue, value);
        i := i + 1;
      }
    }

    /** Removes all points of a client; each has to be there when its turn comes. */
    method RemoveEntry(key: Key)
      requires Valid() && entriesCnt > 0
      requires AllFound(All(), Points(hash, key, uniformFactor))
      modifies this, buckets, nodes
      ensures Valid() && nodes == old(nodes) && |chains| == old(|chains|)
      ensures All() == RemoveAll(old(All()), Points(hash, key, uniformFactor))
    {
      ghost var ps := Points(hash, key, uniformFactor);
      var i := 0;
      while i < uniformFactor
        invariant i <= uniformFactor && Valid() && nodes == old(nodes) && |chains| == old(|chains|)
        invariant RemoveAll(All(), ps[i..]) == RemoveAll(old(All()), ps)
        invariant AllFound(All(), ps[i..])
      {
        var hashValue := hash(i, key);
        assert ps[i..][0] == hashValue && ps[i..][1..] == ps[i + 1..];
        RemoveEntryWithKey(hashValue);
        i := i + 1;
      }
    }

    /** Looks for an entry from key on in one bucket. */
    method SearchBucket(b: nat, key: Key) returns (found: Option<Entry>)
      requires Shape() && b < |chains|
      ensures found == FirstFrom(Contents()[b], key)
    {
      var entry := buckets[b];
      ghost var k := 0;
      ghost var l := Contents()[b];
      while entry != null
        invariant k <= |chains[b]| && entry == At(chains[b], k)
        invariant FirstFrom(l, key) == FirstFrom(l[k..], key)
        decreases |chains[b]| - k
      {
        if entry.key >= key {
          return Some(Entry(entry.key, entry.value));
        }
        assert l[k..][1..] == l[k + 1..];
        entry, k := entry.next, k + 1;
      }
      return None;
    }

    /** The client that serves a request; None is the assertion at the end of the lookup, which fails on a ring that
        is not empty exactly when all entries lie in the bucket of the hashed key with smaller keys. */
    method GetEntry(key: Key) returns (value: Option<Value>)
      requires Valid() && entriesCnt > 0
      ensures value == Answer(All(), width, hash(0, key))
      ensures value.None? <==>
                forall e :: e in All() ==> e.key < hash(0, key) && e.key / width == hash(0, key) / width
    {
      var h := hash(0, key);
      var b := BucketNum(h);
      var found := Visit(b, h);
      LookupRefines(Contents(), width, h);
      LookupGap(Contents(), width, h);
      value := if found.Some? then Some(found.value.value) else None;
    }

    /** The loop of the lookup over the buckets. */
    method Visit(start: nat, h: Key) returns (found: Option<Entry>)
      requires Shape() && start < |chains|
      ensures found == Scan(Contents(), start, h, |chains|)
    {
      ghost var bs := Contents();
      var b: nat, from: Key, i: nat := start, h, 0;
      while i < buckets.Length
        invariant i <= buckets.Length && b < |chains|
        invariant Scan(bs, b, from, |bs| - i) == Scan(bs, start, h, |bs|)
      {
        found := SearchBucket(b, from);
        if found.Some? {
          return;
        }
        b, i := b + 1, i + 1;
        if b == buckets.Length {
          b, from := 0, 0;
        }
      }
      found := None;
    }

    method IsEmpty() returns (empty: bool)
      requires Valid()
      ensures empty <==> All() == []
    {
      empty := entriesCnt == 0;
    }

    /** Walks down a list, counting its entries off. */
    method FreeBucket(head: Node?, ghost chain: seq<Node>, entriesLeft: int) returns (left: int)
      requires Linked(head, chain)
      ensures left == entriesLeft - |chain|
    {
      var entry := head;
      ghost var k := 0;
      left := entriesLeft;
      while entry != null
        invariant k <= |chain| && entry == At(chain, k) && left == entriesLeft - k
        decreases |chain| - k
      {
        entry, k, left := entry.next, k + 1, left - 1;
      }
    }

    /** The lists from the given heads run through the chains. */
    ghost predicate Heads(heads: seq<Node?>)
      reads `chains, `nodes, nodes
    {
      && width > 0 && |heads| == |chains|
      && forall b :: 0 <= b < |chains| ==> AtHome(b, chains[b]) && Linked(heads[b], chains[b])
    }

    /** Clears all buckets, counting their entries off. */
    method ClearBuckets() returns (left: int)
      requires Shape()
      modifies buckets
      ensures left == entriesCnt - |All()| && forall c :: 0 <= c < buckets.Length ==> buckets[c] == null
    {
      ghost var bs, heads := Contents(), buckets[..];
      assert Heads(heads);
      assert bs[0..] == bs;
      left := entriesCnt;
      var i := 0;
      while i < buckets.Length
        invariant i <= buckets.Length && left == entriesCnt - |Flat(bs)| + |Flat(bs[i..])|
        invariant Heads(heads) && buckets[i..] == heads[i..]
        invariant forall c :: 0 <= c < i ==> buckets[c] == null
      {
        assert buckets[i] == buckets[i..][0] == heads[i];
        left := FreeBucket(buckets[i], chains[i], left);
        FlatFrom(bs, i);
        buckets[i] := null;
        i := i + 1;
      }
    }

    /** Removes everything; what is counted off has to come out at zero. */
    method RemoveAllEntries()
      requires Valid()
      modifies this, buckets
      ensures Valid() && All() == [] && |chains| == old(|chains|) && nodes == old(nodes)
    {
      var left := ClearBuckets();
      assert left == 0;
      entriesCnt := 0;
      DropChains();
    }

    ghost method DropChains()
      requires width > 0 && |chains| * width == KEYS && buckets.Length == |chains| && entriesCnt == 0
      requires forall c :: 0 <= c < |chains| ==> buckets[c] == null
      modifies `chains
      ensures Valid() && All() == [] && |chains| == old(|chains|)
    {
      chains := seq(|chains|, _ => []);
      FlatEmpty(Contents());
    }
  }

  lemma {:induction false} FlatEmpty(bs: seq<seq<Entry>>)
    requires forall b :: 0 <= b < |bs| ==> bs[b] == []
    ensures Flat(bs) == []
  {
    if bs != [] { FlatEmpty(bs[1..]); }
  }

  /** Linking a node in before the first one at or after its key inserts its entry. */
  lemma EntriesWith(chain: seq<Node>, k: nat, node: Node)
    requires k <= |chain| && (forall i :: 0 <= i < k ==> chain[i].key < node.key)
    requires k < |chain| ==> chain[k].key >= node.key
    ensures Entries(ConsistentHash.With(chain, k, node)) == Insert(Entries(chain), Entry(node.key, node.value))
  {
    InsertAtIs(Entries(chain), k, Entry(node.key, node.value));
  }

  /** Unlinking the first node with a key removes the first entry with that key. */
  lemma EntriesWithout(chain: seq<Node>, k: nat, key: Key)
    requires k < |chain| && chain[k].key == key && forall i :: 0 <= i < k ==> chain[i].key != key
    ensures Entries(ConsistentHash.Without(chain, k)) == Remove(Entries(chain), key)
  {
    RemoveAtIs(Entries(chain), k, key);
  }

  lemma EntryFound(chain: seq<Node>, k: nat, key: Key)
    requires HasKey(Entries(chain), key) && k <= |chain| && forall i :: 0 <= i < k ==> chain[i].key != key
    ensures k < |chain|
  {
    var e :| e in Entries(chain) && e.key == key;
    var i :| 0 <= i < |chain| && Entries(chain)[i] == e;
  }

  lemma AddEffect(before: seq<seq<Node>>, after: seq<seq<Node>>, width: nat, b: nat, k: nat, node: Node)
    requires Bucketed(AllEntries(before), width) && b < |before| && b == node.key / width
    requires k <= |before[b]| && (forall i :: 0 <= i < k ==> before[b][i].key < node.key)
    requires k < |before[b]| ==> before[b][k].key >= node.key
    requires after == before[b := ConsistentHash.With(before[b], k, node)]
    ensures Bucketed(AllEntries(after), width)
    ensures Flat(AllEntries(after)) == Insert(Flat(AllEntries(before)), Entry(node.key, node.value))
  {
    EntriesWith(before[b], k, node);
    AddRefines(AllEntries(before), width, Entry(node.key, node.value));
    assert AllEntries(after) == Added(AllEntries(before), width, Entry(node.key, node.value));
  }

  lemma RemoveEffect(before: seq<seq<Node>>, after: seq<seq<Node>>, width: nat, b: nat, k: nat, key: Key)
    requires Bucketed(AllEntries(before), width) && b < |before| && b == key / width
    requires k < |before[b]| && before[b][k].key == key && forall i :: 0 <= i < k ==> before[b][i].key != key
    requires after == before[b := ConsistentHash.Without(before[b], k)]
    ensures Bucketed(AllEntries(after), width)
    ensures Flat(AllEntries(after)) == Remove(Flat(AllEntries(before)), key)
  {
    EntriesWithout(before[b], k, key);
    assert AllEntries(after) == Removed(AllEntries(before), width, key);
    RemoveRefines(AllEntries(before), width, key);
  }

  lemma InItsBucket(chains: seq<seq<Node>>, width: nat, b: nat, key: Key)
    requires Bucketed(AllEntries(chains), width) && HasKey(Flat(AllEntries(chains)), key)
    requires b < |chains| && b == key / width
    ensures HasKey(Entries(chains[b]), key)
  {
    RemoveRefines(AllEntries(chains), width, key);
  }
}
