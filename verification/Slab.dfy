/** The slab allocator: objects of ten sizes carved out of pages, tracked by one bitmap per page.

    Slab records are keyed by address, 0 being the null pointer; what malloc hands out is a
    parameter, with `regions` recording the memory in use.
  */
module Slab {
  import opened Seqs
  import opened Bitmap

  const HEADER := 24
  const MAGIC := 0x48534C4142
  const CLASSES := 10
  const BIG := 0xFFFF_FFFF_FFFF_FFFF
  const TOP := 0x1_0000_0000_0000_0000
  const PAGE := 4096
  const SIZES: seq<nat> := [32, 64, 128, 256, 512, 1024, 2048, 4096, 8192, 16384]

  type Class = c: nat | c < CLASSES

  function Size(c: Class): (s: nat)
    ensures s > HEADER
  {
    SIZES[c]
  }

  function Bytes(c: Class): nat {
    (Size(c) + PAGE - 1) / PAGE * PAGE
  }

  /** The number of objects in a slab of class c. */
  function Objects(c: Class): (n: nat)
    ensures n > 0 && n * Size(c) == Bytes(c)
  {
    assert c in {0, 1, 2, 3, 4, 5, 6, 7, 8, 9};
    Bytes(c) / Size(c)
  }

  /** slab_class_for_size: the smallest class that holds the size as an unsigned word. */
  method ClassForSize(size: nat) returns (c: int)
    requires size < TOP
    ensures -1 <= c < CLASSES && c == ClassOf(size)
  {
    var needed := (size + HEADER) % TOP;
    c := 0;
    while c < CLASSES
      invariant 0 <= c <= CLASSES && FirstClass(needed, c) == FirstClass(needed, 0)
    {
      if needed <= Size(c) { return; }
      c := c + 1;
    }
    c := -1;
  }

  function FirstClass(needed: nat, c: nat): (r: int)
    requires c <= CLASSES
    ensures r == -1 || (c <= r < CLASSES && needed <= Size(r))
    ensures r == -1 <==> forall k :: c <= k < CLASSES ==> Size(k) < needed
    ensures forall k :: c <= k < r ==> Size(k) < needed
    decreases CLASSES - c
  {
    if c == CLASSES then -1 else if needed <= Size(c) then c else FirstClass(needed, c + 1)
  }

  function ClassOf(size: nat): int {
    FirstClass((size + HEADER) % TOP, 0)
  }

  /** An object of the chosen class has room for the request exactly when adding the header does not wrap around. */
  lemma ClassHolds(size: nat)
    requires size < TOP && ClassOf(size) >= 0
    ensures size <= Size(ClassOf(size)) - HEADER <==> size + HEADER < TOP
  {
    assert ClassOf(size) in {0, 1, 2, 3, 4, 5, 6, 7, 8, 9};
  }

  /** The largest request is served with eight bytes. */
  lemma WrappedRequest()
    ensures ClassOf(TOP - 1) == 0 && Size(0) - HEADER == 8
  {
  }

  datatype Header = Header(magic: nat, class_: nat, slab: int)

  datatype Record = Record(page: nat, map_: Map, next: int, count: nat, free: int)

  ghost function Zeros(bits: seq<bool>): nat {
    if bits == [] then 0 else Zeros(bits[..|bits| - 1]) + if bits[|bits| - 1] then 0 else 1
  }

  lemma {:induction false} ZerosUpdate(bits: seq<bool>, i: nat, b: bool)
    requires i < |bits| && bits[i] != b
    ensures Zeros(bits[i := b]) == Zeros(bits) + if b then -1 else 1
  {
    var n := |bits| - 1;
    if i == n {
      assert bits[i := b][..n] == bits[..n];
    } else {
      assert bits[i := b][..n] == bits[..n][i := b];
      ZerosUpdate(bits[..n], i, b);
    }
  }

  lemma {:induction false} ZerosExist(bits: seq<bool>)
    ensures Zeros(bits) > 0 <==> exists i :: 0 <= i < |bits| && !bits[i]
  {
    if bits != [] {
      var n := |bits| - 1;
      ZerosExist(bits[..n]);
      if Zeros(bits[..n]) > 0 {
        var j :| 0 <= j < n && !bits[..n][j];
        assert !bits[j];
      } else {
        forall i | 0 <= i < n ensures bits[i] { assert bits[..n][i]; }
      }
    }
  }

  lemma {:induction false} ZerosAll(bits: seq<bool>)
    requires forall i :: 0 <= i < |bits| ==> !bits[i]
    ensures Zeros(bits) == |bits|
  {
    if bits != [] { ZerosAll(bits[..|bits| - 1]); }
  }

  /** The allocator as a value: `chains` are the slab lists, `bits` the bitmaps, `raws` where malloc put
      each page, `regions` the memory in use, and `bigs` the objects too big for a class. */
  datatype Store = Store(heads: seq<int>, slabs: map<int, Record>, headers: map<int, Header>,
                         chains: seq<seq<int>>, classes: map<int, Class>, bits: map<int, seq<bool>>,
                         raws: map<int, int>, regions: map<int, nat>, bigs: map<int, nat>)

  ghost predicate LinkOk(s: Store, c: Class, k: nat)
    requires |s.chains| == CLASSES && k < |s.chains[c]|
  {
    var a := s.chains[c][k];
    a != 0 && a in s.slabs && a in s.classes && s.classes[a] == c && s.slabs[a].next == At(s.chains[c], k + 1)
  }

  ghost predicate Chained(s: Store) {
    && |s.heads| == CLASSES == |s.chains|
    && (forall c: Class :: s.heads[c] == At(s.chains[c], 0))
    && (forall c: Class, k :: 0 <= k < |s.chains[c]| ==> LinkOk(s, c, k))
    && s.classes.Keys == s.slabs.Keys == s.bits.Keys == s.raws.Keys
    && (forall a :: a in s.slabs ==> a in s.chains[s.classes[a]])
  }

  /** Where object i of slab a has its header. */
  ghost function Place(s: Store, a: int, i: nat): int
    requires a in s.slabs && a in s.classes
  {
    s.slabs[a].page + i * Size(s.classes[a])
  }

  ghost predicate HeaderOk(s: Store, a: int, i: nat)
    requires a in s.slabs && a in s.classes
  {
    Place(s, a, i) in s.headers && s.headers[Place(s, a, i)] == Header(MAGIC, s.classes[a], a)
  }

  /** The free count is the number of clear bits, and the objects fill the page. */
  ghost predicate SlabOk(s: Store, a: int)
    requires a in s.slabs
  {
    && a in s.classes && a in s.bits && a in s.raws
    && s.slabs[a].count == Objects(s.classes[a]) == |s.bits[a]|
    && s.slabs[a].free == Zeros(s.bits[a])
    && s.raws[a] in s.regions && s.regions[s.raws[a]] == Bytes(s.classes[a]) + 7
    && s.raws[a] <= s.slabs[a].page <= s.raws[a] + 7
    && forall i :: 0 <= i < s.slabs[a].count ==> HeaderOk(s, a, i)
  }

  ghost predicate Apart(regions: map<int, nat>, r: int, n: nat) {
    forall q :: q in regions ==> q + regions[q] <= r || r + n <= q
  }

  ghost predicate Disjoint(regions: map<int, nat>) {
    && (forall q :: q in regions ==> regions[q] > 0)
    && (forall q, r :: q in regions && r in regions && q != r ==> Outside(regions, q, r))
  }

  ghost predicate Outside(regions: map<int, nat>, q: int, r: int)
    requires q in regions && r in regions
  {
    q + regions[q] <= r || r + regions[r] <= q
  }

  ghost predicate BigOk(s: Store, p: int)
    requires p in s.bigs
  {
    && p - HEADER in s.regions && s.regions[p - HEADER] == HEADER + s.bigs[p]
    && p - HEADER in s.headers && s.headers[p - HEADER] == Header(MAGIC, BIG, 0)
  }

  /** A header with the magic number belongs to an object of a slab or to a big object in use. */
  ghost predicate Known(s: Store, h: int)
    requires h in s.headers
  {
    s.headers[h].magic == MAGIC ==>
      if s.headers[h].class_ == BIG then h + HEADER in s.bigs
      else
        var a := s.headers[h].slab;
        && a != 0 && a in s.slabs && a in s.classes && s.headers[h].class_ == s.classes[a]
        && exists i :: 0 <= i < s.slabs[a].count && h == Place(s, a, i)
  }

  ghost predicate Sound(s: Store) {
    && Chained(s) && Disjoint(s.regions)
    && (forall a :: a in s.slabs ==> SlabOk(s, a))
    && (forall a, b :: a in s.raws && b in s.raws && a != b ==> s.raws[a] != s.raws[b])
    && (forall p :: p in s.bigs ==> BigOk(s, p))
    && (forall a, p :: a in s.raws && p in s.bigs ==> s.raws[a] != p - HEADER)
    && (forall h :: h in s.headers ==> Known(s, h))
  }

  /** Object i of slab a is in use and p points behind its header. */
  ghost predicate Used(s: Store, a: int, i: nat, p: int) {
    && a in s.slabs && a in s.classes && a in s.bits && i < |s.bits[a]| && s.bits[a][i]
    && p == Place(s, a, i) + HEADER
  }

  /** p was returned by slab_alloc and not freed since. */
  ghost predicate Live(s: Store, p: int) {
    p in s.bigs || exists a, i :: Used(s, a, i, p)
  }

  /** The memory of a live object with its header is [p - HEADER, p - HEADER + n). */
  ghost predicate Extent(s: Store, p: int, n: nat) {
    (p in s.bigs && n == HEADER + s.bigs[p]) || (exists a, i :: Used(s, a, i, p) && n == Size(s.classes[a]))
  }

  lemma Mul(a: nat, b: nat, size: nat)
    requires a <= b
    ensures a * size <= b * size
  {
    assert (b - a) * size >= 0;
    assert (b - a) * size == b * size - a * size;
  }

  lemma Slots(i: nat, j: nat, n: nat, size: nat)
    requires i < j < n
    ensures i * size + size <= j * size && j * size + size <= n * size
  {
    Mul(i + 1, j, size);
    Mul(j + 1, n, size);
    assert (i + 1) * size == i * size + size && (j + 1) * size == j * size + size;
  }

  lemma FarApart(regions: map<int, nat>, q: int, r: int)
    requires Disjoint(regions) && q in regions && r in regions && q != r
    ensures q + regions[q] <= r || r + regions[r] <= q
  {
    assert Outside(regions, q, r);
  }

  lemma SlotInside(s: Store, a: int, i: nat)
    requires a in s.slabs && SlabOk(s, a) && i < s.slabs[a].count
    ensures s.raws[a] <= Place(s, a, i) && Place(s, a, i) + Size(s.classes[a]) <= s.raws[a] + s.regions[s.raws[a]]
  {
    Slots(0, i + 1, Objects(s.classes[a]) + 1, Size(s.classes[a]));
    assert (i + 1) * Size(s.classes[a]) == i * Size(s.classes[a]) + Size(s.classes[a]);
  }

  /** Live objects never overlap, headers included. */
  lemma NoOverlap(s: Store, p: int, n: nat, q: int, m: nat)
    requires Sound(s) && Extent(s, p, n) && Extent(s, q, m) && p != q
    ensures p + n <= q || q + m <= p
  {
    hide Chained, Known, BigOk, SlabOk;
    if p in s.bigs && n == HEADER + s.bigs[p] {
      if q in s.bigs && m == HEADER + s.bigs[q] {
        assert BigOk(s, p) && BigOk(s, q);
        BigBig(s, p, q);
      } else {
        var b, j :| Used(s, b, j, q) && m == Size(s.classes[b]);
        BigSlot(s, p, b, j);
      }
    } else {
      var a, i :| Used(s, a, i, p) && n == Size(s.classes[a]);
      if q in s.bigs && m == HEADER + s.bigs[q] {
        BigSlot(s, q, a, i);
      } else {
        var b, j :| Used(s, b, j, q) && m == Size(s.classes[b]);
        SlotSlot(s, a, i, b, j);
      }
    }
  }

  lemma BigBig(s: Store, p: int, q: int)
    requires Disjoint(s.regions) && p in s.bigs && q in s.bigs && BigOk(s, p) && BigOk(s, q) && p != q
    ensures p + HEADER + s.bigs[p] <= q || q + HEADER + s.bigs[q] <= p
  {
    FarApart(s.regions, p - HEADER, q - HEADER);
  }

  lemma BigSlot(s: Store, p: int, a: int, i: nat)
    requires Sound(s) && p in s.bigs && a in s.slabs && a in s.classes && a in s.bits && i < |s.bits[a]|
    ensures p + s.bigs[p] <= Place(s, a, i) || Place(s, a, i) + Size(s.classes[a]) <= p - HEADER
  {
    hide Chained, Known;
    assert SlabOk(s, a) && BigOk(s, p);
    SlotInside(s, a, i);
    FarApart(s.regions, p - HEADER, s.raws[a]);
  }

  lemma Sized(s: Store, a: int)
    requires a in s.slabs && SlabOk(s, a)
    ensures a in s.bits && a in s.classes && a in s.raws && |s.bits[a]| == s.slabs[a].count && s.raws[a] in s.regions
  {
  }

  lemma SameSlab(s: Store, a: int, i: nat, j: nat)
    requires a in s.slabs && a in s.classes && i != j
    ensures Place(s, a, i) + Size(s.classes[a]) <= Place(s, a, j) ||
      Place(s, a, j) + Size(s.classes[a]) <= Place(s, a, i)
  {
    if i < j { Slots(i, j, j + 1, Size(s.classes[a])); } else { Slots(j, i, i + 1, Size(s.classes[a])); }
  }

  lemma SlotSlot(s: Store, a: int, i: nat, b: int, j: nat)
    requires Sound(s) && a in s.slabs && a in s.classes && a in s.bits && b in s.slabs && b in s.classes && b in s.bits
    requires i < |s.bits[a]| && j < |s.bits[b]| && Place(s, a, i) != Place(s, b, j)
    ensures Place(s, a, i) + Size(s.classes[a]) <= Place(s, b, j) ||
      Place(s, b, j) + Size(s.classes[b]) <= Place(s, a, i)
  {
    hide Chained, Known, BigOk, SlabOk;
    if a == b {
      SameSlab(s, a, i, j);
    } else {
      assert SlabOk(s, a) && SlabOk(s, b);
      Sized(s, a);
      Sized(s, b);
      SlotInside(s, a, i);
      SlotInside(s, b, j);
      FarApart(s.regions, s.raws[a], s.raws[b]);
    }
  }

  // Steps on the value.

  /** Bit i of slab a becomes b. */
  ghost function Flip(s: Store, a: int, i: nat, b: bool): Store
    requires a in s.slabs && a in s.bits && i < |s.bits[a]|
  {
    s.(slabs := s.slabs[a := s.slabs[a].(free := s.slabs[a].free + if b then -1 else 1)],
       bits := s.bits[a := s.bits[a][i := b]])
  }

  lemma FlipSound(s: Store, a: int, i: nat, b: bool, s': Store)
    requires Sound(s) && a in s.slabs && a in s.bits && i < |s.bits[a]| && s.bits[a][i] != b && s' == Flip(s, a, i, b)
    ensures Sound(s')
  {
    hide Zeros, SlabOk, LinkOk, Known, HeaderOk, BigOk;
    FlipChained(s, a, i, b, s');
    forall x | x in s'.slabs ensures SlabOk(s', x) { FlipSlab(s, a, i, b, s', x); }
    forall p | p in s'.bigs ensures BigOk(s', p) { FlipBig(s, s', p); }
    forall h | h in s'.headers ensures Known(s', h) { FlipKnown(s, a, i, b, s', h); }
  }

  lemma FlipChained(s: Store, a: int, i: nat, b: bool, s': Store)
    requires Chained(s) && a in s.slabs && a in s.bits && i < |s.bits[a]| && s' == Flip(s, a, i, b)
    ensures Chained(s')
  {
    forall c: Class, k | 0 <= k < |s'.chains[c]| ensures LinkOk(s', c, k) { assert LinkOk(s, c, k); }
  }

  lemma FlipSlab(s: Store, a: int, i: nat, b: bool, s': Store, x: int)
    requires a in s.slabs && a in s.bits && i < |s.bits[a]| && s.bits[a][i] != b && s' == Flip(s, a, i, b)
    requires x in s.slabs && SlabOk(s, x)
    ensures SlabOk(s', x)
  {
    hide Zeros;
    if x == a { ZerosUpdate(s.bits[a], i, b); }
    forall k | 0 <= k < s'.slabs[x].count ensures HeaderOk(s', x, k) { assert HeaderOk(s, x, k); }
  }

  lemma FlipBig(s: Store, s': Store, p: int)
    requires p in s.bigs && BigOk(s, p) && s' == s.(slabs := s'.slabs, bits := s'.bits)
    ensures BigOk(s', p)
  {
  }

  lemma FlipKnown(s: Store, a: int, i: nat, b: bool, s': Store, h: int)
    requires a in s.slabs && a in s.bits && i < |s.bits[a]| && s' == Flip(s, a, i, b) && h in s.headers && Known(s, h)
    ensures Known(s', h)
  {
    if s.headers[h].magic == MAGIC && s.headers[h].class_ != BIG {
      var x := s.headers[h].slab;
      var k :| 0 <= k < s.slabs[x].count && h == Place(s, x, k);
      assert h == Place(s', x, k);
    }
  }

  /** Only the object at that place starts or ends its life. */
  lemma FlipLive(s: Store, a: int, i: nat, b: bool, s': Store, p: int)
    requires Sound(s) && a in s.slabs && a in s.classes && a in s.bits && i < |s.bits[a]| && s.bits[a][i] != b
    requires s' == Flip(s, a, i, b)
    ensures p != Place(s, a, i) + HEADER ==> (Live(s', p) <==> Live(s, p))
    ensures Live(s', Place(s, a, i) + HEADER) <==> b
    ensures Live(s, Place(s, a, i) + HEADER) <==> !b
  {
    hide Sound;
    var p0 := Place(s, a, i) + HEADER;
    forall x, k: nat ensures Used(s', x, k, p) ==> (Used(s, x, k, p) || (x == a && k == i)) {}
    forall x, k: nat ensures Used(s, x, k, p) ==> (Used(s', x, k, p) || (x == a && k == i)) {}
    assert b ==> Used(s', a, i, p0);
    assert !b ==> Used(s, a, i, p0);
    NotBig(s, a, i);
    forall x, k: nat ensures (Used(s', x, k, p0) || Used(s, x, k, p0)) ==> x == a && k == i {
      if x in s.slabs && x in s.classes && x in s.bits && k < |s.bits[x]| && Place(s, x, k) == Place(s, a, i) {
        OnePlace(s, a, i, x, k);
      }
    }
  }

  lemma NotBig(s: Store, a: int, i: nat)
    requires Sound(s) && a in s.slabs && a in s.classes && a in s.bits && i < |s.bits[a]|
    ensures Place(s, a, i) + HEADER !in s.bigs
  {
    if Place(s, a, i) + HEADER in s.bigs { BigSlot(s, Place(s, a, i) + HEADER, a, i); }
  }

  lemma OnePlace(s: Store, a: int, i: nat, b: int, j: nat)
    requires Sound(s) && a in s.slabs && a in s.classes && a in s.bits && b in s.slabs && b in s.classes && b in s.bits
    requires i < |s.bits[a]| && j < |s.bits[b]| && Place(s, a, i) == Place(s, b, j)
    ensures a == b && i == j
  {
    hide Chained, Known, BigOk, SlabOk;
    assert SlabOk(s, a) && SlabOk(s, b);
    if a == b {
      if i != j { SameSlab(s, a, i, j); }
    } else {
      Sized(s, a);
      Sized(s, b);
      SlotInside(s, a, i);
      SlotInside(s, b, j);
      FarApart(s.regions, s.raws[a], s.raws[b]);
    }
  }

  /** What is known of headers once [r, r + n) is used for something else. */
  function Forget(headers: map<int, Header>, r: int, n: nat): map<int, Header> {
    map h | h in headers && (h + HEADER <= r || r + n <= h) :: headers[h]
  }

  /** A big object of the given size at r. */
  ghost function BigTaken(s: Store, r: int, size: nat): Store {
    s.(regions := s.regions[r := HEADER + size], bigs := s.bigs[r + HEADER := size],
       headers := Forget(s.headers, r, HEADER + size)[r := Header(MAGIC, BIG, 0)])
  }

  /** A big object is gone; its header is spoiled. */
  ghost function BigFreed(s: Store, p: int): Store
    requires p - HEADER in s.headers
  {
    s.(regions := s.regions - {p - HEADER}, bigs := s.bigs - {p},
       headers := s.headers[p - HEADER := s.headers[p - HEADER].(magic := 0)])
  }

  lemma ApartFrom(regions: map<int, nat>, r: int, n: nat, q: int)
    requires Apart(regions, r, n) && q in regions
    ensures q + regions[q] <= r || r + n <= q
  {
  }

  lemma DisjointAdd(regions: map<int, nat>, r: int, n: nat)
    requires Disjoint(regions) && Apart(regions, r, n) && n > 0
    ensures r !in regions && Disjoint(regions[r := n])
  {
    if r in regions { ApartFrom(regions, r, n, r); }
    var regions' := regions[r := n];
    forall q, x | q in regions' && x in regions' && q != x ensures Outside(regions', q, x) {
      if q != r { ApartFrom(regions, r, n, q); }
      if x != r { ApartFrom(regions, r, n, x); }
      if q != r && x != r { assert Outside(regions, q, x); }
    }
  }

  /** Headers of objects elsewhere survive. */
  lemma Survives(s: Store, r: int, n: nat, a: int, i: nat)
    requires a in s.slabs && SlabOk(s, a) && i < s.slabs[a].count && Apart(s.regions, r, n)
    ensures var h := Place(s, a, i);
      h in s.headers && h in Forget(s.headers, r, n) && Forget(s.headers, r, n)[h] == s.headers[h]
    ensures Place(s, a, i) + HEADER <= r || r + n <= Place(s, a, i)
  {
    assert HeaderOk(s, a, i);
    SlotInside(s, a, i);
    ApartFrom(s.regions, r, n, s.raws[a]);
  }

  lemma BigSurvives(s: Store, r: int, n: nat, p: int)
    requires p in s.bigs && BigOk(s, p) && Apart(s.regions, r, n)
    ensures p - HEADER in Forget(s.headers, r, n) && Forget(s.headers, r, n)[p - HEADER] == s.headers[p - HEADER]
    ensures p <= r || r + n <= p - HEADER
  {
    ApartFrom(s.regions, r, n, p - HEADER);
  }

  ghost predicate SameHeader(s: Store, s': Store, h: int) {
    h in s.headers && h in s'.headers && s'.headers[h] == s.headers[h]
  }

  /** Slab x is as before in s', with its headers and region. */
  lemma SameSlabOk(s: Store, s': Store, x: int)
    requires x in s.slabs && SlabOk(s, x) && x in s'.slabs && s'.slabs[x] == s.slabs[x]
    requires x in s'.classes && s'.classes[x] == s.classes[x] && x in s'.bits && s'.bits[x] == s.bits[x]
    requires x in s'.raws && s'.raws[x] == s.raws[x] && s.raws[x] in s'.regions
    requires s'.regions[s.raws[x]] == s.regions[s.raws[x]]
    requires forall k :: 0 <= k < s.slabs[x].count ==> SameHeader(s, s', Place(s, x, k))
    ensures SlabOk(s', x)
  {
    hide Zeros;
    forall k | 0 <= k < s'.slabs[x].count ensures HeaderOk(s', x, k) {
      assert HeaderOk(s, x, k) && SameHeader(s, s', Place(s, x, k));
      assert Place(s', x, k) == Place(s, x, k);
    }
  }

  lemma BigTakenSound(s: Store, r: int, size: nat, s': Store)
    requires Sound(s) && Apart(s.regions, r, HEADER + size) && s' == BigTaken(s, r, size)
    ensures Sound(s')
  {
    hide Zeros, SlabOk, LinkOk, Known, HeaderOk, BigOk, Disjoint, Apart, Chained;
    DisjointAdd(s.regions, r, HEADER + size);
    SameChained(s, s');
    forall x | x in s'.slabs ensures SlabOk(s', x) { BigTakenSlab(s, r, size, s', x); }
    forall p | p in s'.bigs ensures BigOk(s', p) {
      if p != r + HEADER { BigTakenBig(s, r, size, s', p); } else { BigNew(s, r, size, s'); }
    }
    forall a, p | a in s'.raws && p in s'.bigs ensures s'.raws[a] != p - HEADER { RawElsewhere(s, a, r); }
    forall h | h in s'.headers ensures Known(s', h) {
      if h != r { KnownStays(s, s', h); } else { BigNew(s, r, size, s'); }
    }
  }

  lemma RawElsewhere(s: Store, a: int, r: int)
    requires Sound(s) && a in s.raws && r !in s.regions
    ensures s.raws[a] != r
  {
    assert a in s.slabs && SlabOk(s, a);
  }

  lemma SameChained(s: Store, s': Store)
    requires Chained(s) && s'.heads == s.heads && s'.slabs == s.slabs && s'.chains == s.chains
    requires s'.classes == s.classes && s'.bits == s.bits && s'.raws == s.raws
    ensures Chained(s')
  {
    forall c: Class, k | 0 <= k < |s'.chains[c]| ensures LinkOk(s', c, k) { assert LinkOk(s, c, k); }
  }

  lemma BigTakenSlab(s: Store, r: int, size: nat, s': Store, x: int)
    requires x in s.slabs && SlabOk(s, x) && Apart(s.regions, r, HEADER + size) && r !in s.regions
    requires s' == BigTaken(s, r, size)
    ensures SlabOk(s', x)
  {
    hide SlabOk, Apart, Forget;
    Sized(s, x);
    forall k | 0 <= k < s.slabs[x].count ensures SameHeader(s, s', Place(s, x, k)) {
      Survives(s, r, HEADER + size, x, k);
    }
    SameSlabOk(s, s', x);
  }

  lemma BigTakenBig(s: Store, r: int, size: nat, s': Store, p: int)
    requires p in s.bigs && BigOk(s, p) && Apart(s.regions, r, HEADER + size) && r !in s.regions
    requires s' == BigTaken(s, r, size)
    ensures p in s'.bigs && BigOk(s', p)
  {
    hide Apart, Forget;
    BigSurvives(s, r, HEADER + size, p);
  }

  lemma BigNew(s: Store, r: int, size: nat, s': Store)
    requires s' == BigTaken(s, r, size)
    ensures r + HEADER in s'.bigs && BigOk(s', r + HEADER) && r in s'.headers && Known(s', r)
  {
  }

  /** A header that did not change is still known. */
  lemma KnownStays(s: Store, s': Store, h: int)
    requires h in s.headers && Known(s, h) && h in s'.headers && s'.headers[h] == s.headers[h]
    requires h + HEADER in s.bigs ==> h + HEADER in s'.bigs
    requires forall a :: a in s.slabs && a in s.classes ==>
      a in s'.slabs && a in s'.classes && s'.classes[a] == s.classes[a] && s'.slabs[a].page == s.slabs[a].page &&
        s'.slabs[a].count == s.slabs[a].count
    ensures Known(s', h)
  {
    if s.headers[h].magic == MAGIC && s.headers[h].class_ != BIG {
      var x := s.headers[h].slab;
      var k :| 0 <= k < s.slabs[x].count && h == Place(s, x, k);
      assert h == Place(s', x, k);
    }
  }

  lemma BigFreedSound(s: Store, p: int, s': Store)
    requires Sound(s) && p in s.bigs && p - HEADER in s.headers && s' == BigFreed(s, p)
    ensures Sound(s')
  {
    hide Zeros, SlabOk, LinkOk, Known, HeaderOk, BigOk, Chained;
    SameChained(s, s');
    forall q, x | q in s'.regions && x in s'.regions && q != x ensures Outside(s'.regions, q, x) {
      assert Outside(s.regions, q, x);
    }
    forall x | x in s'.slabs ensures SlabOk(s', x) { BigFreedSlab(s, p, s', x); }
    forall q | q in s'.bigs ensures BigOk(s', q) { BigFreedBig(s, p, s', q); }
    forall h | h in s'.headers ensures Known(s', h) {
      if h != p - HEADER { KnownStays(s, s', h); } else { Spoiled(s', h); }
    }
  }

  lemma Spoiled(s: Store, h: int)
    requires h in s.headers && s.headers[h].magic == 0
    ensures Known(s, h)
  {
  }

  lemma BigFreedSlab(s: Store, p: int, s': Store, x: int)
    requires Sound(s) && x in s.slabs && p in s.bigs && p - HEADER in s.headers && s' == BigFreed(s, p)
    ensures SlabOk(s', x)
  {
    hide Chained, Known, Zeros, SlabOk;
    assert SlabOk(s, x);
    Sized(s, x);
    forall k | 0 <= k < s.slabs[x].count ensures SameHeader(s, s', Place(s, x, k)) {
      AnyHeader(s, x, k);
      BigSlot(s, p, x, k);
    }
    SameSlabOk(s, s', x);
  }

  lemma AnyHeader(s: Store, x: int, k: nat)
    requires x in s.slabs && SlabOk(s, x) && k < s.slabs[x].count
    ensures Place(s, x, k) in s.headers && k < |s.bits[x]|
  {
    assert HeaderOk(s, x, k);
  }

  lemma BigFreedBig(s: Store, p: int, s': Store, q: int)
    requires p in s.bigs && q in s.bigs && q != p && BigOk(s, q) && p - HEADER in s.headers && s' == BigFreed(s, p)
    ensures BigOk(s', q)
  {
  }

  // A new slab.

  function AlignUp8(r: nat): (p: nat)
    ensures r <= p <= r + 7 && p % 8 == 0
  {
    (r + 7) / 8 * 8
  }

  /** Headers for the first n objects of a slab. */
  function SlotHeaders(headers: map<int, Header>, page: nat, c: Class, a: int, n: nat): map<int, Header> {
    if n == 0 then headers
    else SlotHeaders(headers, page, c, a, n - 1)[page + (n - 1) * Size(c) := Header(MAGIC, c, a)]
  }

  lemma {:induction false} SlotHeadersAt(headers: map<int, Header>, page: nat, c: Class, a: int, n: nat, h: int)
    ensures var r := SlotHeaders(headers, page, c, a, n);
      if exists i :: 0 <= i < n && h == page + i * Size(c) then h in r && r[h] == Header(MAGIC, c, a)
      else (h in r <==> h in headers) && (h in r ==> r[h] == headers[h])
  {
    if n > 0 {
      SlotHeadersAt(headers, page, c, a, n - 1, h);
      if h == page + (n - 1) * Size(c) {
      } else {
        assert forall i :: 0 <= i < n && h == page + i * Size(c) ==> i < n - 1;
      }
    }
  }

  ghost function Grown(s: Store, c: Class, a: int, m: Map, raw: nat): Store
    requires |s.heads| == CLASSES == |s.chains|
  {
    var page := AlignUp8(raw);
    Store(s.heads[c := a], s.slabs[a := Record(page, m, s.heads[c], Objects(c), Objects(c))],
          SlotHeaders(Forget(s.headers, raw, Bytes(c) + 7), page, c, a, Objects(c)),
          s.chains[c := [a] + s.chains[c]], s.classes[a := c], s.bits[a := seq(Objects(c), _ => false)],
          s.raws[a := raw], s.regions[raw := Bytes(c) + 7], s.bigs)
  }

  /** Old headers that survive are not overwritten by those of the new slab. */
  lemma OldHeader(s: Store, c: Class, a: int, m: Map, raw: nat, s': Store, h: int)
    requires |s.heads| == CLASSES == |s.chains| && s' == Grown(s, c, a, m, raw)
    requires h in s.headers && (h + HEADER <= raw || raw + Bytes(c) + 7 <= h)
    ensures SameHeader(s, s', h)
  {
    var page, n := AlignUp8(raw), Objects(c);
    SlotHeadersAt(Forget(s.headers, raw, Bytes(c) + 7), page, c, a, n, h);
    forall i | 0 <= i < n ensures h != page + i * Size(c) {
      Slots(0, i + 1, n + 1, Size(c));
      assert (i + 1) * Size(c) == i * Size(c) + Size(c);
    }
  }

  lemma GrownChained(s: Store, c: Class, a: int, m: Map, raw: nat, s': Store)
    requires Chained(s) && a != 0 && a !in s.slabs && s' == Grown(s, c, a, m, raw)
    ensures Chained(s')
  {
    forall c': Class, k | 0 <= k < |s'.chains[c']| ensures LinkOk(s', c', k) {
      if c' != c { assert LinkOk(s, c', k); }
      else if k > 0 { assert LinkOk(s, c, k - 1); }
    }
    forall x | x in s'.slabs ensures x in s'.chains[s'.classes[x]] {
      if x != a { assert x in s.chains[s.classes[x]]; } else { assert s'.chains[c][0] == a; }
    }
  }

  lemma GrownNew(s: Store, c: Class, a: int, m: Map, raw: nat, s': Store)
    requires |s.heads| == CLASSES == |s.chains| && s' == Grown(s, c, a, m, raw)
    ensures a in s'.slabs && SlabOk(s', a)
  {
    hide Zeros;
    var bits := seq(Objects(c), _ => false);
    ZerosAll(bits);
    forall i | 0 <= i < Objects(c) ensures HeaderOk(s', a, i) {
      SlotHeadersAt(Forget(s.headers, raw, Bytes(c) + 7), AlignUp8(raw), c, a, Objects(c), Place(s', a, i));
    }
  }

  lemma GrownOld(s: Store, c: Class, a: int, m: Map, raw: nat, s': Store, x: int)
    requires |s.heads| == CLASSES == |s.chains| && s' == Grown(s, c, a, m, raw) && Apart(s.regions, raw, Bytes(c) + 7)
    requires x in s.slabs && x != a && SlabOk(s, x) && raw !in s.regions
    ensures SlabOk(s', x)
  {
    hide SlabOk, Apart, SlotHeaders, Forget;
    Sized(s, x);
    forall k | 0 <= k < s.slabs[x].count ensures SameHeader(s, s', Place(s, x, k)) {
      Survives(s, raw, Bytes(c) + 7, x, k);
      OldHeader(s, c, a, m, raw, s', Place(s, x, k));
    }
    SameSlabOk(s, s', x);
  }

  lemma GrownBig(s: Store, c: Class, a: int, m: Map, raw: nat, s': Store, p: int)
    requires |s.heads| == CLASSES == |s.chains| && s' == Grown(s, c, a, m, raw) && Apart(s.regions, raw, Bytes(c) + 7)
    requires p in s.bigs && BigOk(s, p) && raw !in s.regions
    ensures BigOk(s', p)
  {
    hide Apart, SlotHeaders, Forget;
    BigSurvives(s, raw, Bytes(c) + 7, p);
    OldHeader(s, c, a, m, raw, s', p - HEADER);
  }

  lemma GrownKnown(s: Store, c: Class, a: int, m: Map, raw: nat, s': Store, h: int)
    requires |s.heads| == CLASSES == |s.chains| && s' == Grown(s, c, a, m, raw) && a != 0 && a !in s.slabs
    requires h in s'.headers
    requires h in s.headers ==> Known(s, h)
    ensures Known(s', h)
  {
    hide SlotHeaders;
    var page, n := AlignUp8(raw), Objects(c);
    SlotHeadersAt(Forget(s.headers, raw, Bytes(c) + 7), page, c, a, n, h);
    if i :| 0 <= i < n && h == page + i * Size(c) {
      assert h == Place(s', a, i);
    } else {
      KnownStays(s, s', h);
    }
  }

  lemma GrownSound(s: Store, c: Class, a: int, m: Map, raw: nat, s': Store)
    requires Sound(s) && a != 0 && a !in s.slabs && Apart(s.regions, raw, Bytes(c) + 7) && s' == Grown(s, c, a, m, raw)
    ensures Sound(s')
  {
    hide Zeros, SlabOk, LinkOk, Known, HeaderOk, BigOk, Disjoint, Apart, Chained, SlotHeaders, Forget, Objects, Bytes;
    hide Size, AlignUp8;
    assert Sizes(s) by { Sizing(s); }
    DisjointAdd(s.regions, raw, Bytes(c) + 7);
    GrownChained(s, c, a, m, raw, s');
    forall x | x in s'.slabs ensures SlabOk(s', x) {
      if x == a { GrownNew(s, c, a, m, raw, s'); } else { GrownOld(s, c, a, m, raw, s', x); }
    }
    forall p | p in s'.bigs ensures BigOk(s', p) { GrownBig(s, c, a, m, raw, s', p); }
    forall h | h in s'.headers ensures Known(s', h) { GrownKnown(s, c, a, m, raw, s', h); }
    forall x | x in s.raws ensures s.raws[x] != raw { RawElsewhere(s, x, raw); }
    forall p | p in s.bigs ensures raw != p - HEADER { BigElsewhere(s, p, raw); }
  }

  ghost predicate Sizes(s: Store) {
    |s.heads| == CLASSES == |s.chains|
  }

  lemma Sizing(s: Store)
    requires Chained(s)
    ensures Sizes(s)
  {
  }

  lemma BigElsewhere(s: Store, p: int, r: int)
    requires Sound(s) && p in s.bigs && r !in s.regions
    ensures r != p - HEADER
  {
    assert BigOk(s, p);
  }

  /** A new slab has no live object. */
  lemma GrownLive(s: Store, c: Class, a: int, m: Map, raw: nat, s': Store, p: int)
    requires Sound(s) && a !in s.slabs && s' == Grown(s, c, a, m, raw)
    ensures Live(s', p) <==> Live(s, p)
  {
    hide SlabOk, LinkOk, Known, HeaderOk, BigOk, Disjoint, SlotHeaders, Forget;
    forall x, i: nat ensures Used(s', x, i, p) <==> Used(s, x, i, p) {}
  }

  /** What malloc gives for a new slab: its record, the bitmap and the page. */
  datatype Grant = Refused | Granted(slab: int, storage: array<bv8>, raw: nat)

  class Allocator {
    var heads: seq<int>
    var slabs: map<int, Record>
    var headers: map<int, Header>
    ghost var chains: seq<seq<int>>
    ghost var classes: map<int, Class>
    ghost var bits: map<int, seq<bool>>
    ghost var raws: map<int, int>
    ghost var regions: map<int, nat>
    ghost var bigs: map<int, nat>
    ghost var repr: set<object>

    ghost function Abs(): Store
      reads this
    {
      Store(heads, slabs, headers, chains, classes, bits, raws, regions, bigs)
    }

    /** The bitmap of slab a holds bits[a]. */
    ghost predicate Shows(a: int)
      requires a in slabs && a in bits
      reads this, repr
    {
      var m := slabs[a].map_;
      && m in repr && m.storage != null && m.storage in repr && m.bitCount == |bits[a]| && m.Valid()
      && forall i :: 0 <= i < |bits[a]| ==> i / 8 < m.storage.Length && BitAt(m.storage[..], i) == bits[a][i]
    }

    ghost predicate Valid()
      reads this, repr
    {
      && this !in repr && Sound(Abs())
      && (forall a :: a in slabs ==> a in bits && Shows(a))
      && (forall a, b :: a in slabs && b in slabs && a != b ==> Separate(slabs[a].map_, slabs[b].map_))
    }

    constructor ()
      ensures Valid() && slabs == map[] && bigs == map[] && repr == {}
    {
      heads, chains := [0, 0, 0, 0, 0, 0, 0, 0, 0, 0], [[], [], [], [], [], [], [], [], [], []];
      slabs, headers, classes, bits, raws, regions, bigs, repr := map[], map[], map[], map[], map[], map[], map[], {};
    }

    /** Takes the lowest free object of a slab that has one. */
    method TakeLowest(a: int) returns (i: nat)
      requires Valid() && a in slabs && slabs[a].free != 0
      modifies this, repr
      ensures Valid() && repr == old(repr) && i < |old(bits)[a]| && !old(bits)[a][i]
      ensures a in old(bits) && Abs() == Flip(old(Abs()), a, i, true) && forall j :: 0 <= j < i ==> old(bits)[a][j]
    {
      hide Sound, SlabOk, Zeros;
      var m := slabs[a].map_;
      FreeSlot(a);
      var ok;
      ok, i := m.FindClear();
      if !ok { assert false; }
      LowestBit(m, bits[a], i);
      FlipSound(Abs(), a, i, true, Flip(Abs(), a, i, true));
      SetIn(a, i);
    }

    /** A slab with a free object has a clear bit. */
    lemma FreeSlot(a: int)
      requires Valid() && a in slabs && slabs[a].free != 0
      ensures slabs[a].map_.storage != null && slabs[a].map_.lowest < slabs[a].map_.bitCount
    {
      assert SlabOk(Abs(), a) && Shows(a);
      ZerosExist(bits[a]);
      var i :| 0 <= i < |bits[a]| && !bits[a][i];
      assert !BitAt(slabs[a].map_.storage[..], i);
    }

    method SetIn(a: int, i: nat)
      requires Valid() && a in slabs && a in bits && i < |bits[a]| && !bits[a][i] && Sound(Flip(Abs(), a, i, true))
      modifies this, repr
      ensures Valid() && repr == old(repr) && Abs() == Flip(old(Abs()), a, i, true)
    {
      hide Sound, SlabOk, Zeros, AllSet, Exact, BitOf;
      var m := slabs[a].map_;
      assert Shows(a);
      var _ := m.Set(i);
      slabs := slabs[a := slabs[a].(free := slabs[a].free - 1)];
      bits := bits[a := bits[a][i := true]];
    }

    /** The memory of a grant is in nobody's use. */
    ghost predicate Offered(c: Class, grant: Grant)
      reads this
    {
      grant.Granted? ==>
        && grant.slab != 0 && grant.slab !in slabs && grant.storage !in repr &&
          grant.storage.Length == StorageSize(Objects(c))
        && Apart(regions, grant.raw, Bytes(c) + 7)
    }

    /** slab_grow. */
    method Grow(c: Class, grant: Grant) returns (a: int)
      requires Valid() && Offered(c, grant)
      modifies this, if grant.Granted? then {grant.storage} else {}
      ensures Valid() && fresh(repr - old(repr) - if grant.Granted? then {grant.storage} else {}) && old(repr) <= repr
      ensures grant.Refused? ==> a == 0 && Abs() == old(Abs()) && repr == old(repr)
      ensures grant.Granted? ==>
        a == grant.slab && exists m ::
          |old(heads)| == CLASSES == |old(chains)| && Abs() == Grown(old(Abs()), c, a, m, grant.raw)
    {
      hide Sound, SlabOk, Zeros, Grown, Exact, AllSet, BitOf;
      if grant.Refused? { return 0; }
      var m := new Map(grant.storage, Objects(c), false);
      assert Sizes(Abs()) by { Sounds(Abs()); }
      Install(c, grant.slab, m, grant.raw);
      return grant.slab;
    }

    /** The part of slab_grow after the allocations. */
    method Install(c: Class, a: int, m: Map, raw: nat)
      requires Valid() && a != 0 && a !in slabs && Apart(regions, raw, Bytes(c) + 7) && Sizes(Abs())
      requires m !in repr && m.storage != null && m.storage !in repr && m.Valid() && m.bitCount == Objects(c)
      requires forall i :: 0 <= i < m.bitCount ==> i / 8 < m.storage.Length && !BitAt(m.storage[..], i)
      modifies this
      ensures Valid() && repr == old(repr) + {m, m.storage} && Abs() == Grown(old(Abs()), c, a, m, raw)
    {
      hide Sound, SlabOk, Zeros, Grown, Exact, AllSet, BitOf, BitAt, SlotHeaders, Forget, Objects, Bytes, AlignUp8;
      ghost var s := Abs();
      var page := AlignUp8(raw);
      GrownSound(s, c, a, m, raw, Grown(s, c, a, m, raw));
      WriteHeaders(page, c, a, raw);
      Link(c, a, m, page, raw, s);
      repr := repr + {m, m.storage};
      forall x | x in slabs ensures x in bits && Shows(x) {
        assert x != a ==> old(x in bits && Shows(x));
      }
      forall x, y | x in slabs && y in slabs && x != y ensures Separate(slabs[x].map_, slabs[y].map_) {
        assert x != a ==> old(x in bits && Shows(x));
        assert y != a ==> old(y in bits && Shows(y));
      }
    }

    /** The loop of slab_grow over the objects. */
    method WriteHeaders(page: nat, c: Class, a: int, raw: nat)
      modifies this`headers
      ensures headers == SlotHeaders(Forget(old(headers), raw, Bytes(c) + 7), page, c, a, Objects(c))
    {
      headers := Forget(headers, raw, Bytes(c) + 7);
      ghost var known := headers;
      var i := 0;
      while i < Objects(c)
        invariant 0 <= i <= Objects(c) && headers == SlotHeaders(known, page, c, a, i)
      {
        headers := headers[page + i * Size(c) := Header(MAGIC, c, a)];
        i := i + 1;
      }
    }

    /** The record of the new slab goes to the front of the list of its class. */
    method Link(c: Class, a: int, m: Map, page: nat, ghost raw: nat, ghost s: Store)
      requires |heads| == CLASSES == |chains| && page == AlignUp8(raw)
      requires s == Abs().(headers := s.headers)
      requires headers == SlotHeaders(Forget(s.headers, raw, Bytes(c) + 7), page, c, a, Objects(c))
      modifies this
      ensures Abs() == Grown(s, c, a, m, raw) && repr == old(repr)
      ensures slabs == old(slabs)[a := Record(page, m, old(heads)[c], Objects(c), Objects(c))]
      ensures bits == old(bits)[a := seq(Objects(c), _ => false)]
    {
      slabs := slabs[a := Record(page, m, heads[c], Objects(c), Objects(c))];
      heads := heads[c := a];
      chains := chains[c := [a] + chains[c]];
      classes := classes[a := c];
      bits := bits[a := seq(Objects(c), _ => false)];
      raws := raws[a := raw];
      regions := regions[raw := Bytes(c) + 7];
    }

    /** The first slab of a class with a free object, by walking the list; 0 if there is none. */
    method FindSlab(c: Class) returns (a: int, ghost k: nat)
      requires Valid()
      ensures a == 0 <==> NoFree(Abs(), c)
      ensures a != 0 ==> a in slabs && a in classes && classes[a] == c && slabs[a].free != 0
      ensures a != 0 ==> FirstSlab(Abs(), c, k, a)
    {
      hide SlabOk, Zeros, Known, BigOk, Disjoint, NoFree, FirstSlab;
      a, k := heads[c], 0;
      while a != 0 && slabs[a].free == 0
        invariant k <= |chains[c]| && a == At(chains[c], k)
        invariant k < |chains[c]| ==> LinkOk(Abs(), c, k)
        invariant forall j :: 0 <= j < k ==> chains[c][j] in slabs && slabs[chains[c][j]].free == 0
        decreases |chains[c]| - k
      {
        a := slabs[a].next;
        k := k + 1;
        assert k < |chains[c]| ==> LinkOk(Abs(), c, k);
      }
      if a == 0 { NoneFree(Abs(), c); } else { SomeFree(Abs(), c, k, a); }
    }

    /** slab_alloc for a size that has a class; 0 when there is no memory. */
    method AllocClass(c: Class, grant: Grant) returns (p: int)
      requires Valid() && Offered(c, grant)
      modifies this, repr, if grant.Granted? then {grant.storage} else {}
      ensures Valid()
      ensures p == 0 <==> grant.Refused? && old(NoFree(Abs(), c))
      ensures p == 0 ==> Abs() == old(Abs())
      ensures p != 0 ==> !old(Live(Abs(), p)) && Extent(Abs(), p, Size(c)) && bigs == old(bigs)
      ensures p != 0 ==> forall q :: q != p ==> (Live(Abs(), q) <==> old(Live(Abs(), q)))
      ensures !old(NoFree(Abs(), c)) ==>
        slabs.Keys == old(slabs.Keys) && regions == old(regions) && exists k, i :: FirstFree(old(Abs()), c, k, i, p)
      ensures old(NoFree(Abs(), c)) && p != 0 ==>
        slabs.Keys == old(slabs.Keys) + {grant.slab} && p == AlignUp8(grant.raw) + HEADER
    {
      hide Sound, SlabOk, Zeros, Grown, Live, Extent, NoFree, Flip, FirstSlab, FirstFree;
      ghost var s := Abs();
      ghost var k, i;
      var a;
      a, k := FindSlab(c);
      if a == 0 {
        a := Grow(c, grant);
        if a == 0 { return 0; }
        GrownFacts(s, Abs(), c, a, grant.raw);
        ghost var s1 := Abs();
        p, i := TakeFrom(c, a);
        NewObject(s1, c, a, grant.raw, i, p);
      } else {
        p, i := TakeFrom(c, a);
        OldObject(s, c, k, a, i, p);
      }
    }

    /** The end of slab_alloc: an object of slab a. */
    method TakeFrom(c: Class, a: int) returns (p: int, ghost i: nat)
      requires Valid() && a in slabs && a in classes && classes[a] == c && slabs[a].free != 0
      modifies this, repr
      ensures Valid() && p > 0 && !old(Live(Abs(), p)) && Extent(Abs(), p, Size(c)) && bigs == old(bigs)
      ensures forall q :: q != p ==> (Live(Abs(), q) <==> old(Live(Abs(), q)))
      ensures slabs.Keys == old(slabs.Keys) && regions == old(regions) && Lowest(old(Abs()), a, i)
      ensures p == Place(old(Abs()), a, i) + HEADER
    {
      hide Sound, SlabOk, Zeros, Live, Extent;
      ghost var s := Abs();
      var page := slabs[a].page;
      var n := TakeLowest(a);
      i := n;
      p := page + n * Size(c) + HEADER;
      TakenFacts(s, Abs(), c, a, n, p);
    }

    /** slab_alloc; `raw` is what malloc gives for an object too big for a class, 0 for nothing. */
    method Alloc(size0: nat, grant: Grant, raw: nat) returns (p: int)
      requires Valid() && size0 < TOP
      requires var size := if size0 == 0 then 1 else size0;
        if ClassOf(size) >= 0 then Offered(ClassOf(size), grant) else raw != 0 ==> Apart(regions, raw, HEADER + size)
      modifies this, repr, if grant.Granted? then {grant.storage} else {}
      ensures Valid()
      ensures p == 0 ==> Abs() == old(Abs())
      ensures p != 0 ==> !old(Live(Abs(), p)) && forall q :: q != p ==> (Live(Abs(), q) <==> old(Live(Abs(), q)))
      ensures p != 0 ==> var size := if size0 == 0 then 1 else size0;
        Extent(Abs(), p, if ClassOf(size) >= 0 then Size(ClassOf(size)) else HEADER + size)
      ensures var size := if size0 == 0 then 1 else size0;
        p == 0 <==> if ClassOf(size) >= 0 then grant.Refused? && old(NoFree(Abs(), ClassOf(size))) else raw == 0
      ensures var size := if size0 == 0 then 1 else size0;
        ClassOf(size) >= 0 && !old(NoFree(Abs(), ClassOf(size))) ==>
          regions == old(regions) && exists k, i :: FirstFree(old(Abs()), ClassOf(size), k, i, p)
    {
      hide Sound, SlabOk, Zeros, Live, Extent, NoFree, FirstClass, Size, FirstFree;
      var size := if size0 == 0 then 1 else size0;
      var c := ClassForSize(size);
      if c < 0 {
        if raw == 0 { return 0; }
        p := AllocBig(raw, size);
      } else {
        p := AllocClass(c, grant);
      }
    }

    method AllocBig(raw: nat, size: nat) returns (p: int)
      requires Valid() && raw != 0 && Apart(regions, raw, HEADER + size)
      modifies this
      ensures Valid() && p > 0 && !old(Live(Abs(), p)) && Extent(Abs(), p, HEADER + size)
      ensures forall q :: q != p ==> (Live(Abs(), q) <==> old(Live(Abs(), q)))
      ensures Abs() == BigTaken(old(Abs()), raw, size)
    {
      hide Sound, SlabOk, Zeros, Live, Extent, Forget, Exact, AllSet, BitAt, BitOf, Apart;
      ghost var s := Abs();
      BigTakenSound(s, raw, size, BigTaken(s, raw, size));
      BigLive(s, raw, size, BigTaken(s, raw, size));
      headers := Forget(headers, raw, HEADER + size)[raw := Header(MAGIC, BIG, 0)];
      regions := regions[raw := HEADER + size];
      p := raw + HEADER;
      bigs := bigs[p := size];
    }

    /** slab_free of a pointer that slab_alloc once returned, or of the null pointer. */
    method Free(p: int)
      requires Valid() && (p == 0 || p - HEADER in headers)
      modifies this, repr
      ensures Valid() && repr == old(repr)
      ensures p == 0 || !old(Live(Abs(), p)) ==> Abs() == old(Abs())
      ensures p != 0 ==> !Live(Abs(), p) && p - HEADER in headers
      ensures forall q :: q != p ==> (Live(Abs(), q) <==> old(Live(Abs(), q)))
      ensures p != 0 ==> regions == if p in old(bigs) then old(regions) - {p - HEADER} else old(regions)
    {
      hide Sound, SlabOk, Zeros, Live, Known, Flip, Place;
      if p == 0 { return; }
      ghost var s := Abs();
      var h := p - HEADER;
      var header := headers[h];
      if header.magic != MAGIC {
        NotMine(s, p);
        return;
      }
      if header.class_ == BIG {
        BigGone(s, p);
        headers := headers[h := header.(magic := 0)];
        FreeRegion(p, s);
        return;
      }
      FreeObject(p, header.class_, header.slab);
    }

    method FreeRegion(p: int, ghost s: Store)
      requires p in s.bigs && p - HEADER in s.headers && Sound(BigFreed(s, p))
      requires Abs() == s.(headers := s.headers[p - HEADER := s.headers[p - HEADER].(magic := 0)])
      requires this !in repr && (forall a :: a in slabs ==> a in bits && Shows(a))
      requires forall a, b :: a in slabs && b in slabs && a != b ==> Separate(slabs[a].map_, slabs[b].map_)
      modifies this`regions, this`bigs
      ensures Valid() && Abs() == BigFreed(s, p)
    {
      hide Sound;
      regions := regions - {p - HEADER};
      bigs := bigs - {p};
    }

    /** The end of slab_free for an object of a slab. */
    method FreeObject(p: int, c: nat, a: int)
      requires Valid() && p - HEADER in headers && headers[p - HEADER] == Header(MAGIC, c, a) && c != BIG
      modifies this, repr
      ensures Valid() && repr == old(repr)
      ensures !old(Live(Abs(), p)) ==> Abs() == old(Abs())
      ensures !Live(Abs(), p) && p - HEADER in headers
      ensures forall q :: q != p ==> (Live(Abs(), q) <==> old(Live(Abs(), q)))
      ensures p !in old(bigs) && regions == old(regions)
    {
      hide Sound, SlabOk, Zeros, Live, Known, Flip, AllSet, Exact, BitOf, BitAt;
      ghost var s := Abs();
      ghost var i := Slot(s, p, a);
      var size, base, h := Size(c), slabs[a].page, p - HEADER;
      Divides(i, size);
      if h < base || (h - base) % size != 0 { assert false; }
      var idx := (h - base) / size;
      var m := slabs[a].map_;
      assert Shows(a);
      var bit := m.Get(idx);
      if idx >= slabs[a].count || !bit {
        SlotLive(s, p, a, i);
        return;
      }
      FlipFacts(s, Flip(s, a, i, false), a, i, p);
      ClearIn(a, idx);
    }

    method ClearIn(a: int, i: nat)
      requires Valid() && a in slabs && a in bits && i < |bits[a]| && bits[a][i] && Sound(Flip(Abs(), a, i, false))
      modifies this, repr
      ensures Valid() && repr == old(repr) && Abs() == Flip(old(Abs()), a, i, false)
    {
      hide Sound, SlabOk, Zeros, AllSet, Exact, BitOf;
      var m := slabs[a].map_;
      assert Shows(a);
      var _ := m.Clear(i);
      slabs := slabs[a := slabs[a].(free := slabs[a].free + 1)];
      bits := bits[a := bits[a][i := false]];
    }

    /** An immediate second slab_free leaves what the first one left. */
    method FreeTwice(p: int) returns (ghost once: Store)
      requires Valid() && (p == 0 || p - HEADER in headers)
      modifies this, repr
      ensures Valid() && Abs() == once
      ensures forall q :: Live(once, q) <==> old(Live(Abs(), q)) && (p == 0 || q != p)
    {
      hide Sound, Live;
      Free(p);
      once := Abs();
      Free(p);
    }
  }

  lemma NotMine(s: Store, p: int)
    requires Sound(s) && p - HEADER in s.headers && s.headers[p - HEADER].magic != MAGIC
    ensures !Live(s, p) && p !in s.bigs
  {
    hide Chained, Disjoint, Zeros;
    assert p in s.bigs ==> BigOk(s, p);
    forall a, i: nat, q | Used(s, a, i, q) ensures q - HEADER in s.headers && s.headers[q - HEADER].magic == MAGIC {
      assert SlabOk(s, a) && HeaderOk(s, a, i);
    }
  }

  lemma BigGone(s: Store, p: int)
    requires Sound(s) && p - HEADER in s.headers && s.headers[p - HEADER].magic == MAGIC
    requires s.headers[p - HEADER].class_ == BIG
    ensures p in s.bigs && Sound(BigFreed(s, p)) && Live(s, p) && !Live(BigFreed(s, p), p)
    ensures forall q :: q != p ==> (Live(BigFreed(s, p), q) <==> Live(s, q))
  {
    hide Chained, Disjoint, Zeros, SlabOk;
    assert Known(s, p - HEADER);
    var s' := BigFreed(s, p);
    BigFreedSound(s, p, s');
    forall a, i: nat, q ensures Used(s', a, i, q) <==> Used(s, a, i, q) {}
    forall a, i: nat, q | Used(s, a, i, q) ensures q != p { NotBig(s, a, i); }
  }

  lemma Slot(s: Store, p: int, a: int) returns (i: nat)
    requires Sound(s) && p - HEADER in s.headers && s.headers[p - HEADER].magic == MAGIC
    requires s.headers[p - HEADER].class_ != BIG
    requires a == s.headers[p - HEADER].slab
    ensures a != 0 && a in s.slabs && a in s.classes && a in s.bits && s.headers[p - HEADER].class_ == s.classes[a]
    ensures i < s.slabs[a].count == |s.bits[a]| && p == s.slabs[a].page + i * Size(s.classes[a]) + HEADER
    ensures p !in s.bigs
  {
    hide Chained, Disjoint, Zeros;
    assert p in s.bigs ==> BigOk(s, p);
    assert Known(s, p - HEADER);
    i :| 0 <= i < s.slabs[a].count && p - HEADER == Place(s, a, i);
    assert SlabOk(s, a);
  }

  lemma Divides(i: nat, size: nat)
    requires size > 0
    ensures i * size % size == 0 && i * size / size == i
  {
    var q, r := i * size / size, i * size % size;
    assert q * size + r == i * size;
    assert (q + 1) * size == q * size + size && (i + 1) * size == i * size + size;
    if q < i { Mul(q + 1, i, size); }
    if q > i { Mul(i + 1, q, size); }
  }

  lemma SlotLive(s: Store, p: int, a: int, i: nat)
    requires Sound(s) && a in s.slabs && a in s.classes && a in s.bits && i < |s.bits[a]| && !s.bits[a][i]
    requires p == Place(s, a, i) + HEADER
    ensures !Live(s, p)
  {
    FlipLive(s, a, i, true, Flip(s, a, i, true), p);
  }

  lemma FlipFacts(s: Store, s': Store, a: int, i: nat, p: int)
    requires Sound(s) && a in s.slabs && a in s.classes && a in s.bits && i < |s.bits[a]| && s.bits[a][i]
    requires s' == Flip(s, a, i, false) && p == Place(s, a, i) + HEADER
    ensures Sound(s') && Live(s, p) && !Live(s', p) && s'.headers == s.headers && s'.regions == s.regions
    ensures forall q :: q != p ==> (Live(s', q) <==> Live(s, q))
  {
    hide Sound, Live;
    FlipSound(s, a, i, false, s');
    FlipLive(s, a, i, false, s', p);
    forall q | q != p ensures Live(s', q) <==> Live(s, q) { FlipLive(s, a, i, false, s', q); }
  }

  lemma UsedApart(s: Store, a: int, i: nat, q: int, r: int, n: nat)
    requires Sound(s) && Used(s, a, i, q) && Apart(s.regions, r, n) && n > 0
    ensures q != r + HEADER
  {
    hide Chained, Known, Zeros, BigOk, Disjoint;
    assert SlabOk(s, a);
    Survives(s, r, n, a, i);
  }

  lemma BigLive(s: Store, r: int, size: nat, s': Store)
    requires Sound(s) && Apart(s.regions, r, HEADER + size) && s' == BigTaken(s, r, size)
    ensures !Live(s, r + HEADER) && Extent(s', r + HEADER, HEADER + size)
    ensures forall q :: q != r + HEADER ==> (Live(s', q) <==> Live(s, q))
  {
    hide Chained, Known, SlabOk, Forget;
    var p := r + HEADER;
    DisjointAdd(s.regions, r, HEADER + size);
    assert p in s.bigs ==> BigOk(s, p);
    forall a, i: nat, q | Used(s, a, i, q) ensures q != p { UsedApart(s, a, i, q, r, HEADER + size); }
    forall q, a, i: nat ensures Used(s', a, i, q) <==> Used(s, a, i, q) {}
  }

  /** Every object of class c is in use. */
  ghost predicate NoFree(s: Store, c: Class) {
    forall a :: a in s.slabs && a in s.classes && s.classes[a] == c ==> s.slabs[a].free == 0
  }

  /** Slab a, the k-th of its class, is the first with a free object. */
  ghost predicate FirstSlab(s: Store, c: Class, k: nat, a: int) {
    && |s.chains| == CLASSES && k < |s.chains[c]| && s.chains[c][k] == a && a in s.slabs && s.slabs[a].free != 0
    && forall j :: 0 <= j < k ==> s.chains[c][j] in s.slabs && s.slabs[s.chains[c][j]].free == 0
  }

  lemma NoneFree(s: Store, c: Class)
    requires Chained(s) && forall j :: 0 <= j < |s.chains[c]| ==>
      s.chains[c][j] in s.slabs && s.slabs[s.chains[c][j]].free == 0
    ensures NoFree(s, c)
  {
  }

  lemma SomeFree(s: Store, c: Class, k: nat, a: int)
    requires |s.chains| == CLASSES && k < |s.chains[c]| && s.chains[c][k] == a && a in s.slabs && s.slabs[a].free != 0
    requires a in s.classes && s.classes[a] == c
    requires forall j :: 0 <= j < k ==> s.chains[c][j] in s.slabs && s.slabs[s.chains[c][j]].free == 0
    ensures FirstSlab(s, c, k, a) && !NoFree(s, c)
  {
  }

  /** Object i is the lowest free one of slab a. */
  ghost predicate Lowest(s: Store, a: int, i: nat) {
    a in s.bits && i < |s.bits[a]| && !s.bits[a][i] && forall j :: 0 <= j < i ==> s.bits[a][j]
  }

  /** p is the lowest free object of the first slab of the class that has one. */
  ghost predicate FirstFree(s: Store, c: Class, k: nat, i: nat, p: int) {
    exists a :: FirstSlab(s, c, k, a) && Lowest(s, a, i) && a in s.classes && p == Place(s, a, i) + HEADER
  }

  lemma OldObject(s: Store, c: Class, k: nat, a: int, i: nat, p: int)
    requires FirstSlab(s, c, k, a) && Lowest(s, a, i) && a in s.classes && p == Place(s, a, i) + HEADER
    ensures FirstFree(s, c, k, i, p)
  {
  }

  /** The first object of a new slab. */
  lemma NewObject(s: Store, c: Class, a: int, raw: nat, i: nat, p: int)
    requires a in s.slabs && a in s.classes && a in s.bits && s.slabs[a].page == AlignUp8(raw)
    requires (forall j :: 0 <= j < |s.bits[a]| ==> !s.bits[a][j]) && Lowest(s, a, i) && p == Place(s, a, i) + HEADER
    ensures p == AlignUp8(raw) + HEADER
  {
    assert !s.bits[a][0];
  }

  lemma GrownFacts(s: Store, s1: Store, c: Class, a: int, raw: nat)
    requires Sound(s) && a !in s.slabs && |s.heads| == CLASSES == |s.chains| && exists m :: s1 == Grown(s, c, a, m, raw)
    ensures a in s1.slabs && a in s1.classes && s1.classes[a] == c && s1.slabs[a].free != 0 && s1.bigs == s.bigs
    ensures s1.slabs.Keys == s.slabs.Keys + {a} && s1.slabs[a].page == AlignUp8(raw) && a in s1.bits
    ensures forall j :: 0 <= j < |s1.bits[a]| ==> !s1.bits[a][j]
    ensures forall q :: Live(s1, q) <==> Live(s, q)
  {
    hide Sound, Live, SlotHeaders, Forget;
    var m :| s1 == Grown(s, c, a, m, raw);
    forall q ensures Live(s1, q) <==> Live(s, q) { GrownLive(s, c, a, m, raw, s1, q); }
  }

  lemma TakenFacts(s: Store, s': Store, c: Class, a: int, i: nat, p: int)
    requires Sound(s) && a in s.slabs && a in s.classes && s.classes[a] == c && a in s.bits && i < |s.bits[a]|
    requires !s.bits[a][i]
    requires s' == Flip(s, a, i, true) && p == s.slabs[a].page + i * Size(c) + HEADER
    ensures !Live(s, p) && Extent(s', p, Size(c)) && s'.bigs == s.bigs
    ensures forall q :: q != p ==> (Live(s', q) <==> Live(s, q))
  {
    hide Sound, Live;
    FlipLive(s, a, i, true, s', p);
    assert Used(s', a, i, p);
    forall q | q != p ensures Live(s', q) <==> Live(s, q) { FlipLive(s, a, i, true, s', q); }
  }

  lemma Sounds(s: Store)
    requires Sound(s)
    ensures Sizes(s)
  {
  }

  ghost predicate Separate(m: Map, n: Map) {
    m != n && (m.storage != null ==> m.storage != n.storage)
  }

  lemma LowestBit(m: Map, bits: seq<bool>, i: nat)
    requires m.Valid() && m.storage != null && m.bitCount == |bits| && i < m.bitCount && i / 8 < m.storage.Length
    requires !BitAt(m.storage[..], i)
    requires forall k :: 0 <= k < |bits| ==> k / 8 < m.storage.Length && BitAt(m.storage[..], k) == bits[k]
    requires forall k :: 0 <= k < i ==> k / 8 < m.storage.Length && BitAt(m.storage[..], k)
    ensures !bits[i] && forall k :: 0 <= k < i ==> bits[k]
  {
  }
}
