/** The allocator of small numbers of mrpc_bitmap.c: bits packed into 64-bit words, searched from the last bit that
    was found free. */
module Bitmap {
  import opened Arithmetic

  // ---- one word ----

  predicate WordBit(w: bv64, k: bv6) {
    (w >> k) & 1 == 1
  }

  function SetIn(w: bv64, k: bv6): bv64 {
    w | ((1 as bv64) << k)
  }

  function ClearIn(w: bv64, k: bv6): bv64 {
    w & !((1 as bv64) << k)
  }

  lemma SetWordBit(w: bv64, k: bv6, j: bv6)
    ensures WordBit(w | ((1 as bv64) << k), j) <==> j == k || WordBit(w, j)
  {
  }

  lemma ClearWordBit(w: bv64, k: bv6, j: bv6)
    ensures WordBit(w & !((1 as bv64) << k), j) <==> j != k && WordBit(w, j)
  {
  }

  lemma ZeroWord(k: bv6)
    ensures !WordBit(0, k)
  {
  }

  // ---- words as numbered bits ----

  function WordOf(n: nat): nat {
    n / 64
  }

  function PlaceOf(n: nat): (k: bv6)
    ensures k as int == n % 64
  {
    (n % 64) as bv6
  }

  lemma SamePlace(m: nat, n: nat)
    ensures m == n <==> WordOf(m) == WordOf(n) && PlaceOf(m) == PlaceOf(n)
  {
  }

  predicate Bit(words: seq<bv64>, n: nat)
    requires n < 64 * |words|
  {
    WordBit(words[WordOf(n)], PlaceOf(n))
  }

  function WithBit(words: seq<bv64>, n: nat): (m: seq<bv64>)
    requires n < 64 * |words|
    ensures |m| == |words|
  {
    words[WordOf(n) := SetIn(words[WordOf(n)], PlaceOf(n))]
  }

  function WithoutBit(words: seq<bv64>, n: nat): (m: seq<bv64>)
    requires n < 64 * |words|
    ensures |m| == |words|
  {
    words[WordOf(n) := ClearIn(words[WordOf(n)], PlaceOf(n))]
  }

  /** Setting one bit changes no other. */
  lemma WithBitIs(words: seq<bv64>, n: nat, m: nat)
    requires n < 64 * |words| && m < 64 * |words|
    ensures Bit(WithBit(words, n), m) <==> m == n || Bit(words, m)
  {
    SamePlace(m, n);
    if WordOf(m) == WordOf(n) {
      SetWordBit(words[WordOf(n)], PlaceOf(n), PlaceOf(m));
    }
  }

  /** Clearing one bit changes no other. */
  lemma WithoutBitIs(words: seq<bv64>, n: nat, m: nat)
    requires n < 64 * |words| && m < 64 * |words|
    ensures Bit(WithoutBit(words, n), m) <==> m != n && Bit(words, m)
  {
    SamePlace(m, n);
    if WordOf(m) == WordOf(n) {
      ClearWordBit(words[WordOf(n)], PlaceOf(n), PlaceOf(m));
    }
  }

  /** The numbers that are taken. */
  function Taken(words: seq<bv64>, size: nat): (t: set<nat>)
    requires size <= 64 * |words|
    ensures forall n: nat :: n in t <==> n < size && Bit(words, n)
  {
    set n: nat | n < size && Bit(words, n)
  }

  /** The i-th number from a starting point on, going round. */
  function Round(start: nat, i: nat, size: nat): (n: nat)
    requires start < size && i < size
    ensures n < size
  {
    if start + i < size then start + i else start + i - size
  }

  /** A number is the first free one from the hint upwards, and from 0 upwards once the numbers from the hint on are
      all taken. */
  ghost predicate FirstFree(taken: set<nat>, hint: nat, size: nat, n: nat) {
    && n < size && n !in taken
    && (forall m :: hint <= m < (if hint <= n then n else size) ==> m in taken)
    && (n < hint ==> forall m :: 0 <= m < n ==> m in taken)
  }

  ghost predicate AllTaken(taken: set<nat>, hint: nat, size: nat, i: nat)
    requires hint < size && i <= size
  {
    forall j :: 0 <= j < i ==> Round(hint, j, size) in taken
  }

  lemma AllTakenIsFull(taken: set<nat>, hint: nat, size: nat)
    requires hint < size && AllTaken(taken, hint, size, size) && taken <= UpTo(size)
    ensures taken == UpTo(size)
  {
    forall n | n in UpTo(size)
      ensures n in taken
    {
      var j := if n >= hint then n - hint else n - hint + size;
      assert Round(hint, j, size) == n;
    }
  }

  lemma FoundIsFirst(taken: set<nat>, hint: nat, size: nat, i: nat)
    requires hint < size && i < size && AllTaken(taken, hint, size, i) && Round(hint, i, size) !in taken
    ensures FirstFree(taken, hint, size, Round(hint, i, size))
  {
    var n := Round(hint, i, size);
    forall m: nat | hint <= m < size && m - hint < i
      ensures m in taken
    {
      assert Round(hint, m - hint, size) == m;
    }
    forall m: nat | n < hint && m < n
      ensures m in taken
    {
      assert Round(hint, m + size - hint, size) == m;
    }
  }

  lemma TakenWith(words: seq<bv64>, size: nat, n: nat)
    requires n < size <= 64 * |words|
    ensures Taken(WithBit(words, n), size) == Taken(words, size) + {n}
  {
    forall m: nat | m < size
      ensures Bit(WithBit(words, n), m) <==> m == n || Bit(words, m)
    {
      WithBitIs(words, n, m);
    }
  }

  lemma TakenWithout(words: seq<bv64>, size: nat, n: nat)
    requires n < size <= 64 * |words|
    ensures Taken(WithoutBit(words, n), size) == Taken(words, size) - {n}
  {
    forall m: nat | m < size
      ensures Bit(WithoutBit(words, n), m) <==> m != n && Bit(words, m)
    {
      WithoutBitIs(words, n, m);
    }
  }

  // ---- the allocator ----

  class Bits {
    const words: array<bv64>
    const size: nat
    var lastFreeBit: nat

    ghost predicate Valid()
      reads this
    {
      0 < size <= 64 * words.Length && lastFreeBit < size
    }

    ghost function Numbers(): (t: set<nat>)
      requires Valid()
      reads this, words
    {
      Taken(words[..], size)
    }

    constructor (size: nat)
      requires size > 0
      ensures Valid() && this.size == size && Numbers() == {} && fresh(words) && lastFreeBit == 0
    {
      this.size, lastFreeBit := size, 0;
      words := new bv64[(size + 63) / 64](_ => 0);
      new;
      forall n: nat | n < size
        ensures !Bit(words[..], n)
      {
        ZeroWord(PlaceOf(n));
      }
    }

    /** Takes the first free number from the last free one on; -1 means that all are taken. */
    method AcquireBit() returns (n: int)
      requires Valid()
      modifies this, words
      ensures Valid()
      ensures n == -1 <==> old(Numbers()) == UpTo(size)
      ensures n == -1 ==> Numbers() == old(Numbers()) && lastFreeBit == old(lastFreeBit)
      ensures n != -1 ==> n >= 0 && FirstFree(old(Numbers()), old(lastFreeBit), size, n) && lastFreeBit == n
                          && Numbers() == old(Numbers()) + {n}
    {
      ghost var taken, hint := Numbers(), lastFreeBit;
      var at: nat, i: nat := lastFreeBit, 0;
      while i < size
        invariant i <= size && at < size && at == if i < size then Round(hint, i, size) else hint
        invariant AllTaken(taken, hint, size, i)
      {
        if !Bit(words[..], at) {
          FoundIsFirst(taken, hint, size, i);
          TakenWith(words[..], size, at);
          Set(at);
          lastFreeBit := at;
          return at;
        }
        at, i := at + 1, i + 1;
        if at == size {
          at := 0;
        }
      }
      AllTakenIsFull(taken, hint, size);
      n := -1;
    }

    method ReleaseBit(n: nat)
      requires Valid() && n in Numbers()
      modifies words
      ensures Numbers() == old(Numbers()) - {n}
    {
      TakenWithout(words[..], size, n);
      Clear(n);
    }

    method Set(n: nat)
      requires n < 64 * words.Length
      modifies words
      ensures words[..] == WithBit(old(words[..]), n)
    {
      words[WordOf(n)] := SetIn(words[WordOf(n)], PlaceOf(n));
    }

    method Clear(n: nat)
      requires n < 64 * words.Length
      modifies words
      ensures words[..] == WithoutBit(old(words[..]), n)
    {
      words[WordOf(n)] := ClearIn(words[WordOf(n)], PlaceOf(n));
    }
  }
}
