/** A bitmap with the lowest and highest clear index cached, and byte-wise masked searches. */
module Bitmap {
  predicate BitOf(b: bv8, k: nat)
    requires k < 8
  {
    (b >> k) & 1 != 0
  }

  function Mask(k: nat): bv8
    requires k < 8
  {
    (1 as bv8) << k
  }

  lemma SetBit(b: bv8, k: nat, m: nat)
    requires k < 8 && m < 8
    ensures BitOf(b | Mask(k), m) <==> m == k || BitOf(b, m)
  {
  }

  lemma ClearBit(b: bv8, k: nat, m: nat)
    requires k < 8 && m < 8
    ensures BitOf(b & !Mask(k), m) <==> m != k && BitOf(b, m)
  {
  }

  lemma LowMask(b: bv8, k: nat, m: nat)
    requires k < 8 && m < 8
    ensures BitOf(b | (Mask(k) - 1), m) <==> m < k || BitOf(b, m)
  {
  }

  lemma HighMask(b: bv8, k: nat, m: nat)
    requires k < 7 && m < 8
    ensures BitOf(b | ((0xFF as bv8) << (k + 1)), m) <==> m > k || BitOf(b, m)
  {
  }

  lemma Full(b: bv8)
    ensures b == 0xFF <==> forall m :: 0 <= m < 8 ==> BitOf(b, m)
  {
    if forall m :: 0 <= m < 8 ==> BitOf(b, m) {
      assert BitOf(b, 0) && BitOf(b, 1) && BitOf(b, 2) && BitOf(b, 3) && BitOf(b, 4) && BitOf(b, 5) && BitOf(b, 6) &&
        BitOf(b, 7);
    }
  }

  function StorageSize(bits: nat): nat {
    (bits + 7) / 8
  }

  /** Bit i of the storage. */
  predicate BitAt(s: seq<bv8>, i: nat)
    requires i / 8 < |s|
  {
    BitOf(s[i / 8], i % 8)
  }

  lemma Split(i: nat, q: nat, m: nat)
    requires m < 8 && i == q * 8 + m
    ensures i / 8 == q && i % 8 == m
  {
  }

  lemma InStorage(i: nat, n: nat)
    requires i < n
    ensures i / 8 < StorageSize(n)
  {
  }

  /** All bits from lo up to hi are set. */
  ghost predicate AllSet(s: seq<bv8>, lo: int, hi: int) {
    forall i :: 0 <= i && lo <= i < hi && i / 8 < |s| ==> BitAt(s, i)
  }

  /** The cached indices are those of the lowest and the highest clear bit, or both n if all bits are set. */
  ghost predicate Exact(s: seq<bv8>, n: nat, lo: nat, hi: nat)
    requires |s| == StorageSize(n)
  {
    || (lo == n && hi == n && AllSet(s, 0, n))
    || (lo <= hi < n && (InStorage(lo, n); InStorage(hi, n); !BitAt(s, lo) && !BitAt(s, hi)) && AllSet(s, 0, lo) &&
      AllSet(s, hi + 1, n))
  }

  lemma SamePlace(i: nat, j: nat)
    ensures i == j <==> i / 8 == j / 8 && i % 8 == j % 8
  {
  }

  lemma SetAt(s: seq<bv8>, i: nat, j: nat)
    requires i / 8 < |s| && j / 8 < |s|
    ensures BitAt(s[i / 8 := s[i / 8] | Mask(i % 8)], j) <==> j == i || BitAt(s, j)
  {
    hide BitOf, Mask;
    SamePlace(i, j);
    SetBit(s[i / 8], i % 8, j % 8);
  }

  lemma ClearAt(s: seq<bv8>, i: nat, j: nat)
    requires i / 8 < |s| && j / 8 < |s|
    ensures BitAt(s[i / 8 := s[i / 8] & !Mask(i % 8)], j) <==> j != i && BitAt(s, j)
  {
    hide BitOf, Mask;
    SamePlace(i, j);
    ClearBit(s[i / 8], i % 8, j % 8);
  }

  /** bitmap_get_lowest_zero_bit of a byte that has one. */
  method LowestZero(b: bv8) returns (k: nat)
    requires b != 0xFF
    ensures k < 8 && !BitOf(b, k) && forall m :: 0 <= m < k ==> BitOf(b, m)
  {
    k := 0;
    while k < 7
      invariant k <= 7 && forall m :: 0 <= m < k ==> BitOf(b, m)
    {
      if !BitOf(b, k) { return; }
      k := k + 1;
    }
    Full(b);
  }

  /** bitmap_get_highest_zero_bit of a byte that has one. */
  method HighestZero(b: bv8) returns (k: nat)
    requires b != 0xFF
    ensures k < 8 && !BitOf(b, k) && forall m :: k < m < 8 ==> BitOf(b, m)
  {
    k := 7;
    while k > 0
      invariant k < 8 && forall m :: k < m < 8 ==> BitOf(b, m)
    {
      if !BitOf(b, k) { return; }
      k := k - 1;
    }
    Full(b);
  }

  /** The byte at q with the bits outside [lo, hi] set. */
  function Masked(b: bv8, q: nat, lo: nat, hi: nat): bv8 {
    var b1 := if q == lo / 8 then b | (Mask(lo % 8) - 1) else b;
    if q == hi / 8 && hi % 8 < 7 then b1 | ((0xFF as bv8) << (hi % 8 + 1)) else b1
  }

  lemma MaskedBit(b: bv8, q: nat, lo: nat, hi: nat, m: nat)
    requires m < 8 && lo / 8 <= q <= hi / 8
    ensures BitOf(Masked(b, q, lo, hi), m) <==> q * 8 + m < lo || hi < q * 8 + m || BitOf(b, m)
  {
    var b1 := if q == lo / 8 then b | (Mask(lo % 8) - 1) else b;
    LowMask(b, lo % 8, m);
    if hi % 8 < 7 { HighMask(b1, hi % 8, m); }
  }

  lemma ByteFull(s: seq<bv8>, q: nat, lo: nat, hi: nat)
    requires lo / 8 <= q <= hi / 8 && q < |s| && Masked(s[q], q, lo, hi) == 0xFF
    ensures forall i :: lo <= i <= hi && q * 8 <= i < q * 8 + 8 && i / 8 < |s| ==> BitAt(s, i)
  {
    Full(Masked(s[q], q, lo, hi));
    forall i | lo <= i <= hi && q * 8 <= i < q * 8 + 8 && i / 8 < |s| ensures BitAt(s, i) {
      Split(i, q, i - q * 8);
      MaskedBit(s[q], q, lo, hi, i - q * 8);
    }
  }

  lemma ByteClear(s: seq<bv8>, q: nat, lo: nat, hi: nat, m: nat)
    requires lo / 8 <= q <= hi / 8 && q < |s| && m < 8 && !BitOf(Masked(s[q], q, lo, hi), m)
    ensures var i := q * 8 + m; lo <= i <= hi && i / 8 < |s| && !BitAt(s, i)
    ensures (forall j :: 0 <= j < m ==> BitOf(Masked(s[q], q, lo, hi), j)) ==>
      AllSet(s, if lo > q * 8 then lo else q * 8, q * 8 + m)
    ensures (forall j :: m < j < 8 ==> BitOf(Masked(s[q], q, lo, hi), j)) ==>
      forall i :: q * 8 + m < i <= hi && i < q * 8 + 8 ==> i / 8 < |s| && BitAt(s, i)
  {
    Split(q * 8 + m, q, m);
    MaskedBit(s[q], q, lo, hi, m);
    forall i | q * 8 <= i < q * 8 + 8 && lo <= i <= hi
      ensures i / 8 == q && (BitOf(Masked(s[q], q, lo, hi), i - q * 8) <==> BitAt(s, i)) {
      Split(i, q, i - q * 8);
      MaskedBit(s[q], q, lo, hi, i - q * 8);
    }
  }

  /** bitmap_find_clear_forward on the storage: the first clear bit in [start, end], as a bit-by-bit search finds it. */
  method FindForward(s: array<bv8>, n: nat, start: nat, last: nat) returns (ok: bool, out: nat)
    requires s.Length == StorageSize(n)
    ensures ok ==> start <= out <= last && out < n && out / 8 < s.Length
    ensures ok ==> !BitAt(s[..], out) && AllSet(s[..], start, out)
    ensures !ok ==> AllSet(s[..], start, if last < n then last + 1 else n)
  {
    hide BitOf, Masked, Mask;
    out := 0;
    if start > last || start >= n { return false, 0; }
    var end := if last >= n then n - 1 else last;
    InStorage(end, n);
    var q := start / 8;
    while q <= end / 8
      invariant start / 8 <= q <= end / 8 + 1
      invariant AllSet(s[..], start, if q * 8 <= end then q * 8 else end + 1)
    {
      var b := Masked(s[q], q, start, end);
      if b != 0xFF {
        var m := LowestZero(b);
        ByteClear(s[..], q, start, end, m);
        return true, q * 8 + m;
      }
      ByteFull(s[..], q, start, end);
      q := q + 1;
    }
    return false, 0;
  }

  /** bitmap_find_clear_backward on the storage: the last clear bit in [last, start]. */
  method FindBackward(s: array<bv8>, n: nat, start: nat, last: nat) returns (ok: bool, out: nat)
    requires s.Length == StorageSize(n)
    ensures ok ==> last <= out <= start && out < n && out / 8 < s.Length
    ensures ok ==> !BitAt(s[..], out) && AllSet(s[..], out + 1, if start < n then start + 1 else n)
    ensures !ok ==> AllSet(s[..], last, if start < n then start + 1 else n)
  {
    hide BitOf, Masked, Mask;
    out := 0;
    if start < last || last >= n { return false, 0; }
    var first := if start >= n then n - 1 else start;
    InStorage(first, n);
    var q := first / 8;
    while true
      invariant last / 8 <= q <= first / 8
      invariant AllSet(s[..], if last > q * 8 + 8 then last else q * 8 + 8, first + 1)
      decreases q
    {
      var b := Masked(s[q], q, last, first);
      if b != 0xFF {
        var m := HighestZero(b);
        ByteClear(s[..], q, last, first, m);
        return true, q * 8 + m;
      }
      ByteFull(s[..], q, last, first);
      if q == last / 8 { break; }
      q := q - 1;
    }
    return false, 0;
  }

  lemma SetExact(s: seq<bv8>, s': seq<bv8>, n: nat, idx: nat)
    requires |s| == |s'| == StorageSize(n) && idx < n && idx / 8 < |s|
    requires forall j :: 0 <= j && j / 8 < |s| ==> (BitAt(s', j) <==> j == idx || BitAt(s, j))
    ensures forall lo, hi :: AllSet(s, lo, hi) ==> AllSet(s', lo, hi)
  {
    hide BitOf, BitAt;
  }

  class Map {
    const storage: array?<bv8>
    const bitCount: nat
    var lowest: nat
    var highest: nat

    ghost predicate Valid()
      reads this, storage
    {
      if storage == null then lowest == bitCount && highest == bitCount
      else storage.Length == StorageSize(bitCount) && Exact(storage[..], bitCount, lowest, highest)
    }

    /** bitmap_init, with storage of the right size. */
    constructor (memory: array?<bv8>, bits: nat, defaultSet: bool)
      requires memory != null ==> memory.Length == StorageSize(bits)
      modifies memory
      ensures Valid() && storage == memory && bitCount == bits
      ensures memory != null ==> forall i :: 0 <= i < bits ==>
        i / 8 < memory.Length && BitAt(memory[..], i) == defaultSet
    {
      storage, bitCount, lowest, highest := memory, bits, bits, bits;
      new;
      if memory == null { return; }
      if bits == 0 { return; }
      Fill(memory, if defaultSet then 0xFF else 0);
      if !defaultSet {
        lowest := 0;
        highest := bits - 1;
      }
      forall i | 0 <= i < bits ensures i / 8 < memory.Length && BitAt(memory[..], i) == defaultSet {
        InStorage(i, bits);
        Full(0xFF);
        Zero(i % 8);
      }
    }

    /** bitmap_get. */
    method Get(idx: nat) returns (bit: bool)
      requires Valid()
      ensures bit <==> storage != null && idx < bitCount && idx / 8 < storage.Length && BitAt(storage[..], idx)
    {
      if storage == null || idx >= bitCount { return false; }
      InStorage(idx, bitCount);
      return BitOf(storage[idx / 8], idx % 8);
    }

    /** bitmap_find_clear: the lowest clear bit. */
    method FindClear() returns (ok: bool, out: nat)
      requires Valid()
      ensures ok <==> storage != null && lowest < bitCount
      ensures storage != null && !ok ==> AllSet(storage[..], 0, bitCount)
      ensures ok ==> out == lowest < bitCount && out / 8 < storage.Length
      ensures ok ==> !BitAt(storage[..], out) && AllSet(storage[..], 0, out)
    {
      if storage == null || lowest >= bitCount || highest >= bitCount { return false, 0; }
      InStorage(lowest, bitCount);
      ok, out := FindForward(storage, bitCount, lowest, highest);
    }

    /** bitmap_set: only bit idx changes. */
    method Set(idx: nat) returns (ok: bool)
      requires Valid()
      modifies this, storage
      ensures Valid() && (ok <==> storage != null && idx < bitCount)
      ensures !ok ==> storage != null ==> storage[..] == old(storage[..])
      ensures ok ==> forall j :: 0 <= j && j / 8 < storage.Length ==>
        (BitAt(storage[..], j) <==> j == idx || old(BitAt(storage[..], j)))
    {
      if storage == null || idx >= bitCount { return false; }
      var bit := Get(idx);
      if bit { return true; }
      InStorage(idx, bitCount);
      ghost var s := storage[..];
      storage[idx / 8] := storage[idx / 8] | Mask(idx % 8);
      assert storage[..] == s[idx / 8 := s[idx / 8] | Mask(idx % 8)];
      forall j | 0 <= j && j / 8 < storage.Length ensures BitAt(storage[..], j) <==> j == idx || BitAt(s, j) {
        SetAt(s, idx, j);
      }
      RefreshAfterSet(idx, s);
      return true;
    }

    /** bitmap_refresh_bounds_after_set. */
    method RefreshAfterSet(idx: nat, ghost s: seq<bv8>)
      requires storage != null && storage.Length == StorageSize(bitCount) == |s| && idx < bitCount && idx / 8 < |s|
      requires !BitAt(s, idx)
      requires Exact(s, bitCount, lowest, highest)
      requires forall j :: 0 <= j && j / 8 < |s| ==> (BitAt(storage[..], j) <==> j == idx || BitAt(s, j))
      modifies this
      ensures Valid()
    {
      hide BitOf, BitAt;
      SetExact(s, storage[..], bitCount, idx);
      if lowest >= bitCount || highest >= bitCount { return; }
      if idx == lowest {
        var ok, next := FindForward(storage, bitCount, idx + 1, highest);
        if ok {
          lowest := next;
        } else {
          lowest, highest := bitCount, bitCount;
          return;
        }
      }
      if idx == highest {
        var ok, prev := false, 0;
        if idx > 0 { ok, prev := FindBackward(storage, bitCount, idx - 1, lowest); }
        if ok {
          highest := prev;
        } else {
          assert false; // the bit at `lowest` is clear and below idx
        }
      }
    }

    /** bitmap_clear: only bit idx changes. */
    method Clear(idx: nat) returns (ok: bool)
      requires Valid()
      modifies this, storage
      ensures Valid() && (ok <==> storage != null && idx < bitCount)
      ensures !ok ==> storage != null ==> storage[..] == old(storage[..])
      ensures ok ==> forall j :: 0 <= j && j / 8 < storage.Length ==>
        (BitAt(storage[..], j) <==> j != idx && old(BitAt(storage[..], j)))
    {
      hide BitOf;
      if storage == null || idx >= bitCount { return false; }
      var bit := Get(idx);
      if !bit { return true; }
      InStorage(idx, bitCount);
      ghost var s := storage[..];
      storage[idx / 8] := storage[idx / 8] & !Mask(idx % 8);
      assert storage[..] == s[idx / 8 := s[idx / 8] & !Mask(idx % 8)];
      forall j | 0 <= j && j / 8 < storage.Length ensures BitAt(storage[..], j) <==> j != idx && BitAt(s, j) {
        ClearAt(s, idx, j);
      }
      if lowest >= bitCount || highest >= bitCount {
        lowest, highest := idx, idx;
        return true;
      }
      if idx < lowest { lowest := idx; }
      if idx > highest { highest := idx; }
      return true;
    }
  }

  lemma Zero(k: nat)
    requires k < 8
    ensures !BitOf(0, k)
  {
  }

  /** memset. */
  method Fill(a: array<bv8>, b: bv8)
    modifies a
    ensures forall k :: 0 <= k < a.Length ==> a[k] == b
  {
    var i := 0;
    while i < a.Length
      invariant 0 <= i <= a.Length && forall k :: 0 <= k < i ==> a[k] == b
    {
      a[i] := b;
      i := i + 1;
    }
  }
}
