/** The memory that the heap allocator manages, and the block layout it keeps in it.

    Addresses are integers and 0 is the null pointer.  A packed block header takes 25
    bytes and a footer 8, so a block needs 33 bytes beside its payload.  Memory is typed:
    writing a header, a footer or a byte destroys every cell it overlaps, so a later read
    of a destroyed cell is not defined and has to be proved impossible.
  */
module HeapMemory {
  const HEADER := 25
  const FOOTER := 8
  const OVERHEAD := 33

  datatype Header = Header(isFree: bool, size: nat, next: int, footer: int)

  datatype Memory = Memory(headers: map<int, Header>, footers: map<int, int>, bytes: map<int, bv8>)

  /** [a, a+n) and [b, b+k) have no address in common. */
  predicate Apart(a: int, n: int, b: int, k: int) {
    a + n <= b || b + k <= a
  }

  function PutHeader(m: Memory, a: int, h: Header): Memory {
    Memory((map x | x in m.headers && Apart(x, HEADER, a, HEADER) :: m.headers[x])[a := h],
           map x | x in m.footers && Apart(x, FOOTER, a, HEADER) :: m.footers[x],
           map x | x in m.bytes && Apart(x, 1, a, HEADER) :: m.bytes[x])
  }

  function PutFooter(m: Memory, a: int, header: int): Memory {
    Memory(map x | x in m.headers && Apart(x, HEADER, a, FOOTER) :: m.headers[x],
           (map x | x in m.footers && Apart(x, FOOTER, a, FOOTER) :: m.footers[x])[a := header],
           map x | x in m.bytes && Apart(x, 1, a, FOOTER) :: m.bytes[x])
  }

  /** A byte of payload; a byte that was never stored, or whose cell was destroyed, is unknown. */
  datatype Byte = Known(value: bv8) | Unknown

  function ByteAt(m: Memory, a: int): Byte {
    if a in m.bytes then Known(m.bytes[a]) else Unknown
  }

  function PutByte(m: Memory, a: int, b: Byte): Memory {
    Memory(map x | x in m.headers && Apart(x, HEADER, a, 1) :: m.headers[x],
           map x | x in m.footers && Apart(x, FOOTER, a, 1) :: m.footers[x],
           if b.Known? then m.bytes[a := b.value] else m.bytes - {a})
  }

  /** The bytes of [lo, hi) are the same in both memories, known or not. */
  ghost predicate SameBytes(m: Memory, m': Memory, lo: int, hi: int) {
    forall x :: lo <= x < hi ==> ByteAt(m, x) == ByteAt(m', x)
  }

  /** Every cell that lies outside [lo, hi) is the same in both memories. */
  ghost predicate AgreeOutside(m: Memory, m': Memory, lo: int, hi: int) {
    && (forall x :: Apart(x, HEADER, lo, hi - lo) ==>
      (x in m.headers <==> x in m'.headers) && (x in m.headers ==> m.headers[x] == m'.headers[x]))
    && (forall x :: Apart(x, FOOTER, lo, hi - lo) ==>
      (x in m.footers <==> x in m'.footers) && (x in m.footers ==> m.footers[x] == m'.footers[x]))
    && (forall x :: Apart(x, 1, lo, hi - lo) ==> ByteAt(m, x) == ByteAt(m', x))
  }

  datatype Block = Block(addr: int, size: nat, free: bool, listed: bool) {
    function FooterAddr(): int { addr + HEADER + size }
    function End(): int { addr + OVERHEAD + size }
    function Payload(): int { addr + HEADER }
  }

  /** The blocks follow one another without a gap, the first one at address `first`. */
  ghost predicate Tiled(bs: seq<Block>, first: int) {
    && |bs| > 0
    && bs[0].addr == first
    && first > 0
    && forall i :: 0 <= i < |bs| - 1 ==> bs[i].End() == bs[i + 1].addr
  }

  /** The header and the footer of `b` are in memory and point at each other. */
  ghost predicate Tagged(m: Memory, b: Block) {
    && b.addr in m.headers
    && m.headers[b.addr].isFree == b.free
    && m.headers[b.addr].size == b.size
    && m.headers[b.addr].footer == b.FooterAddr()
    && b.FooterAddr() in m.footers
    && m.footers[b.FooterAddr()] == b.addr
  }

  /** The header at `a` is intact. */
  ghost predicate SameHeader(m: Memory, m': Memory, a: int) {
    a in m.headers && a in m'.headers && m.headers[a] == m'.headers[a]
  }

  ghost predicate AllTagged(m: Memory, bs: seq<Block>) {
    forall i :: 0 <= i < |bs| ==> Tagged(m, bs[i])
  }

  ghost predicate FirstAt(bs: seq<Block>, k: nat, r: nat) {
    && k <= r <= |bs|
    && (r < |bs| ==> bs[r].listed)
    && forall x :: k <= x < r ==> !bs[x].listed
  }

  lemma {:induction false} FirstExists(bs: seq<Block>, k: nat)
    requires k <= |bs|
    ensures exists r: nat :: FirstAt(bs, k, r)
    decreases |bs| - k
  {
    if k < |bs| && !bs[k].listed {
      FirstExists(bs, k + 1);
      var r: nat :| FirstAt(bs, k + 1, r);
      assert FirstAt(bs, k, r);
    } else {
      assert FirstAt(bs, k, k);
    }
  }

  /** Index of the first listed block at or after k, or |bs|. */
  ghost function FirstListed(bs: seq<Block>, k: nat): (r: nat)
    requires k <= |bs|
    ensures FirstAt(bs, k, r)
  {
    FirstExists(bs, k);
    var r: nat :| FirstAt(bs, k, r);
    r
  }

  lemma FirstIs(bs: seq<Block>, k: nat, r: nat)
    requires FirstAt(bs, k, r)
    ensures FirstListed(bs, k) == r
  {
  }

  ghost function NextListed(bs: seq<Block>, k: nat): int
    requires k <= |bs|
  {
    var r := FirstListed(bs, k);
    if r < |bs| then bs[r].addr else 0
  }

  /** If block i is listed, its `next` field leads to the next listed block. */
  ghost predicate Linked(m: Memory, bs: seq<Block>, i: nat)
    requires i < |bs|
  {
    bs[i].addr in m.headers && (bs[i].listed ==> m.headers[bs[i].addr].next == NextListed(bs, i + 1))
  }

  /** From `head`, the `next` fields thread exactly the listed blocks in address order. */
  ghost predicate Threaded(m: Memory, bs: seq<Block>, head: int) {
    && head == NextListed(bs, 0)
    && forall i :: 0 <= i < |bs| ==> Linked(m, bs, i)
  }

  ghost predicate Laid(m: Memory, bs: seq<Block>, first: int, head: int) {
    Tiled(bs, first) && AllTagged(m, bs) && Threaded(m, bs, head)
  }

  /** The payload of every occupied block has the same bytes in both memories. */
  ghost predicate PayloadsKept(m: Memory, m': Memory, bs: seq<Block>) {
    forall i :: 0 <= i < |bs| && !bs[i].free ==>
      SameBytes(m, m', bs[i].Payload(), bs[i].FooterAddr())
  }

  lemma KeptTrans(m: Memory, m1: Memory, m2: Memory, bs: seq<Block>)
    requires PayloadsKept(m, m1, bs) && PayloadsKept(m1, m2, bs)
    ensures PayloadsKept(m, m2, bs)
  {
    forall i | 0 <= i < |bs| && !bs[i].free
      ensures SameBytes(m, m2, bs[i].Payload(), bs[i].FooterAddr())
    {
      assert SameBytes(m, m1, bs[i].Payload(), bs[i].FooterAddr());
      assert SameBytes(m1, m2, bs[i].Payload(), bs[i].FooterAddr());
    }
  }

  lemma {:induction false} TiledOrder(bs: seq<Block>, first: int, i: nat, j: nat)
    requires Tiled(bs, first) && i < j < |bs|
    ensures bs[i].End() <= bs[j].addr
    decreases j
  {
    if i < j - 1 {
      TiledOrder(bs, first, i, j - 1);
    }
    assert bs[j - 1].End() == bs[j].addr;
  }

  lemma {:induction false} TiledBounds(bs: seq<Block>, first: int, i: nat)
    requires Tiled(bs, first) && i < |bs|
    ensures first <= bs[i].addr && bs[i].End() <= bs[|bs| - 1].End()
    ensures i > 0 ==> first + OVERHEAD <= bs[i].addr
    ensures i < |bs| - 1 ==> bs[i].End() + HEADER <= bs[|bs| - 1].FooterAddr()
  {
    if i > 0 { TiledOrder(bs, first, 0, i); }
    if i < |bs| - 1 { TiledOrder(bs, first, i, |bs| - 1); }
  }

  lemma SameAddr(bs: seq<Block>, first: int, i: nat, j: nat)
    requires Tiled(bs, first) && i < |bs| && j < |bs|
    ensures bs[i].addr == bs[j].addr <==> i == j
    ensures bs[i].addr < bs[j].addr <==> i < j
  {
    if i < j { TiledOrder(bs, first, i, j); }
    if j < i { TiledOrder(bs, first, j, i); }
  }

  lemma AddressesPositive(bs: seq<Block>, first: int)
    requires Tiled(bs, first)
    ensures forall i :: 0 <= i < |bs| ==> bs[i].addr > 0
  {
    forall i | 0 <= i < |bs| ensures bs[i].addr > 0 {
      TiledBounds(bs, first, i);
    }
  }

  /** What happens inside the span of blocks i..k leaves every other block alone. */
  lemma AgreeElsewhere(m: Memory, m': Memory, bs: seq<Block>, first: int, i: nat, k: nat)
    requires Tiled(bs, first) && AllTagged(m, bs)
    requires i <= k < |bs|
    requires AgreeOutside(m, m', bs[i].addr, bs[k].End())
    ensures forall j {:trigger bs[j]} :: 0 <= j < |bs| && (j < i || k < j) ==>
      Tagged(m', bs[j]) && SameHeader(m, m', bs[j].addr)
      && SameBytes(m, m', bs[j].Payload(), bs[j].FooterAddr())
  {
    forall j {:trigger bs[j]} | 0 <= j < |bs| && (j < i || k < j)
      ensures Tagged(m', bs[j]) && SameHeader(m, m', bs[j].addr)
      ensures SameBytes(m, m', bs[j].Payload(), bs[j].FooterAddr())
    {
      if j < i { TiledOrder(bs, first, j, i); } else { TiledOrder(bs, first, k, j); }
      assert Tagged(m, bs[j]);
    }
  }

  lemma HeaderInside(m: Memory, a: int, h: Header, lo: int, hi: int)
    requires lo <= a && a + HEADER <= hi
    ensures AgreeOutside(m, PutHeader(m, a, h), lo, hi)
  {
  }

  lemma FooterInside(m: Memory, a: int, v: int, lo: int, hi: int)
    requires lo <= a && a + FOOTER <= hi
    ensures AgreeOutside(m, PutFooter(m, a, v), lo, hi)
  {
  }

  lemma AgreeTrans(m: Memory, m1: Memory, m2: Memory, lo: int, hi: int)
    requires AgreeOutside(m, m1, lo, hi) && AgreeOutside(m1, m2, lo, hi)
    ensures AgreeOutside(m, m2, lo, hi)
  {
  }

  /** A run of writes that all stay inside [lo, hi). */
  lemma {:induction false} AgreeChain(ms: seq<Memory>, lo: int, hi: int)
    requires |ms| > 0
    requires forall k :: 0 <= k < |ms| - 1 ==> AgreeOutside(ms[k], ms[k + 1], lo, hi)
    ensures AgreeOutside(ms[0], ms[|ms| - 1], lo, hi)
    decreases |ms|
  {
    if |ms| > 1 {
      var n := |ms| - 1;
      AgreeChain(ms[..n], lo, hi);
      assert AgreeOutside(ms[n - 1], ms[n - 1 + 1], lo, hi);
      AgreeTrans(ms[0], ms[n - 1], ms[n], lo, hi);
    }
  }
}
