/** Four-level page tables, as a tree of frames and as a flat map from pages to leaf entries. */
module PageTables {
  import opened Pte

  const ENTRIES := 512
  const KERNEL_PML4_FIRST := 256

  type Page = s: seq<Word> | |s| == ENTRIES witness seq(ENTRIES, _ => ZERO)
  type Phys = map<FrameNo, Page>

  /** A path of table indices from the PML4 down: [] names the PML4 itself, three indices
      name a page table, four indices name a page. */
  type Path = seq<nat>

  /** The lower half of an address space: its table frames by path, its pages by path. */
  datatype Space = Space(tables: map<Path, FrameNo>, leaves: map<Path, Word>)

  ghost function ZeroPage(): Page { seq(ENTRIES, _ => ZERO) }

  predicate LowerIndex(depth: nat, i: nat) {
    i < ENTRIES && (depth == 0 ==> i < KERNEL_PML4_FIRST)
  }

  ghost predicate LowerPath(p: Path) {
    forall k :: 0 <= k < |p| ==> LowerIndex(k, p[k])
  }

  /** The table above p exists. */
  ghost predicate Hung(s: Space, p: Path) {
    |p| > 0 && p[..|p| - 1] in s.tables
  }

  ghost predicate Shape(s: Space) {
    && [] in s.tables
    && (forall p :: p in s.tables ==> |p| <= 3 && LowerPath(p))
    && (forall p {:trigger Hung(s, p)} :: p in s.tables && p != [] ==> Hung(s, p))
    && (forall p, p' :: p in s.tables && p' in s.tables && s.tables[p] == s.tables[p'] ==> p == p')
    && (forall p :: p in s.leaves ==> |p| == 4 && LowerPath(p))
    && (forall p {:trigger Hung(s, p)} :: p in s.leaves ==> Hung(s, p))
  }

  /** Nothing hangs below a table that does not exist. */
  lemma Childless(s: Space, p: Path, i: nat)
    requires Shape(s) && p !in s.tables
    ensures p + [i] !in s.tables && p + [i] !in s.leaves
  {
    assert (p + [i])[..|p|] == p;
    assert p + [i] in s.tables || p + [i] in s.leaves ==> Hung(s, p + [i]);
  }

  ghost function EntryAt(phys: Phys, s: Space, p: Path, i: nat): Word
    requires p in s.tables && i < ENTRIES && s.tables[p] in phys
  {
    phys[s.tables[p]][i]
  }

  /** Slot i of the upper-level table p: present exactly when there is a table below it. */
  ghost predicate TableSlot(phys: Phys, s: Space, p: Path, i: nat)
    requires p in s.tables && i < ENTRIES && s.tables[p] in phys
  {
    var e := EntryAt(phys, s, p, i);
    && (IsPresent(e) <==> p + [i] in s.tables)
    && (p + [i] in s.tables ==> e.frame == s.tables[p + [i]] && Passes(e))
  }

  /** Slot i of the page table p: present exactly when the page is mapped, to that entry. */
  ghost predicate LeafSlot(phys: Phys, s: Space, p: Path, i: nat)
    requires p in s.tables && i < ENTRIES && s.tables[p] in phys
  {
    var e := EntryAt(phys, s, p, i);
    && (IsPresent(e) <==> p + [i] in s.leaves)
    && (p + [i] in s.leaves ==> s.leaves[p + [i]] == e)
  }

  ghost predicate InMemory(phys: Phys, s: Space) {
    forall p :: p in s.tables ==> s.tables[p] in phys
  }

  ghost predicate Slots(phys: Phys, s: Space)
    requires InMemory(phys, s)
  {
    && (forall p, i :: p in s.tables && |p| < 3 && LowerIndex(|p|, i) ==> TableSlot(phys, s, p, i))
    && (forall p, i :: p in s.tables && |p| == 3 && LowerIndex(|p|, i) ==> LeafSlot(phys, s, p, i))
  }

  /** The first n table entries on the way to page q allow user access. */
  ghost predicate UserUpTo(phys: Phys, s: Space, q: Path, n: nat) {
    forall k :: 0 <= k < n && k < |q| ==> UserAt(phys, s, q[..k], q[k])
  }

  ghost predicate UserAt(phys: Phys, s: Space, p: Path, i: nat) {
    p in s.tables && i < ENTRIES && s.tables[p] in phys && User(EntryFlags(EntryAt(phys, s, p, i)))
  }

  /** A user page is reached through user tables only. */
  ghost predicate UserPaths(phys: Phys, s: Space) {
    forall q :: q in s.leaves && User(EntryFlags(s.leaves[q])) ==> UserUpTo(phys, s, q, 3)
  }

  /** The tables in memory represent the space `s`. */
  ghost predicate Rep(phys: Phys, s: Space) {
    Shape(s) && InMemory(phys, s) && Slots(phys, s) && UserPaths(phys, s)
  }

  ghost function TableFrames(s: Space): set<FrameNo> {
    set p | p in s.tables :: s.tables[p]
  }

  ghost function LeafFrames(s: Space): set<FrameNo> {
    set q | q in s.leaves :: s.leaves[q].frame
  }

  lemma TableFrameIn(s: Space, p: Path)
    requires p in s.tables
    ensures s.tables[p] in TableFrames(s)
  {
  }

  /** A space only depends on the contents of its own tables. */
  lemma RepFrame(phys: Phys, phys': Phys, s: Space)
    requires Rep(phys, s)
    requires forall f :: f in TableFrames(s) ==> f in phys' && phys'[f] == phys[f]
    ensures Rep(phys', s)
  {
    assert forall p :: p in s.tables ==> s.tables[p] in TableFrames(s);
    forall p, i | p in s.tables && |p| < 3 && LowerIndex(|p|, i) ensures TableSlot(phys', s, p, i) {
      assert TableSlot(phys, s, p, i);
    }
    forall p, i | p in s.tables && |p| == 3 && LowerIndex(|p|, i) ensures LeafSlot(phys', s, p, i) {
      assert LeafSlot(phys, s, p, i);
    }
    forall q | q in s.leaves && User(EntryFlags(s.leaves[q])) ensures UserUpTo(phys', s, q, 3) {
      forall k | 0 <= k < 3 && k < |q| ensures UserAt(phys', s, q[..k], q[k]) {
        assert UserAt(phys, s, q[..k], q[k]);
      }
    }
  }

  lemma PathEnd(p: Path, i: nat, p': Path, i': nat)
    ensures p + [i] == p' + [i'] <==> p == p' && i == i'
  {
    if p + [i] == p' + [i'] {
      assert p == (p + [i])[..|p|] && p' == (p' + [i'])[..|p'|];
      assert (p + [i])[|p|] == i;
    }
  }

  /** Rewriting one slot of table p leaves every other slot of the space alone. */
  lemma OneSlot(phys: Phys, s: Space, p: Path, i: nat, e: Word, p': Path, i': nat)
    requires Shape(s) && InMemory(phys, s) && p in s.tables && i < ENTRIES && p' in s.tables && i' < ENTRIES
    ensures var phys' := phys[s.tables[p] := phys[s.tables[p]][i := e]];
      EntryAt(phys', s, p', i') == if p == p' && i == i' then e else EntryAt(phys, s, p', i')
  {
  }

  lemma WidenUsers(phys: Phys, phys': Phys, s: Space, p: Path, i: nat, e: Word, q: Path, n: nat)
    requires Shape(s) && InMemory(phys, s) && p in s.tables && i < ENTRIES
    requires phys' == phys[s.tables[p] := phys[s.tables[p]][i := e]]
    requires User(EntryFlags(EntryAt(phys, s, p, i))) ==> User(EntryFlags(e))
    requires UserUpTo(phys, s, q, n)
    ensures UserUpTo(phys', s, q, n)
  {
    forall k | 0 <= k < n && k < |q| ensures UserAt(phys', s, q[..k], q[k]) {
      assert UserAt(phys, s, q[..k], q[k]);
      OneSlot(phys, s, p, i, e, q[..k], q[k]);
    }
  }

  /** An existing table entry is replaced by a wider one for the same table. */
  lemma WidenSlot(phys: Phys, phys': Phys, s: Space, p: Path, i: nat, e: Word)
    requires Rep(phys, s) && p in s.tables && |p| < 3 && LowerIndex(|p|, i) && p + [i] in s.tables
    requires phys' == phys[s.tables[p] := phys[s.tables[p]][i := e]]
    requires Passes(e) && e.frame == s.tables[p + [i]]
    requires User(EntryFlags(EntryAt(phys, s, p, i))) ==> User(EntryFlags(e))
    ensures Rep(phys', s)
  {
    forall p', i' | p' in s.tables && |p'| < 3 && LowerIndex(|p'|, i') ensures TableSlot(phys', s, p', i') {
      OneSlot(phys, s, p, i, e, p', i');
      assert TableSlot(phys, s, p', i');
    }
    forall p', i' | p' in s.tables && |p'| == 3 && LowerIndex(|p'|, i') ensures LeafSlot(phys', s, p', i') {
      OneSlot(phys, s, p, i, e, p', i');
      assert LeafSlot(phys, s, p', i');
    }
    forall q | q in s.leaves && User(EntryFlags(s.leaves[q])) ensures UserUpTo(phys', s, q, 3) {
      WidenUsers(phys, phys', s, p, i, e, q, 3);
    }
  }

  /** The space with one more table, hung below slot i of table p. */
  ghost function WithTable(s: Space, p: Path, i: nat, f: FrameNo): Space {
    s.(tables := s.tables[p + [i] := f])
  }

  lemma WithTableShape(s: Space, p: Path, i: nat, f: FrameNo)
    requires Shape(s) && p in s.tables && |p| < 3 && LowerIndex(|p|, i) && p + [i] !in s.tables
    requires f !in TableFrames(s)
    ensures Shape(WithTable(s, p, i, f))
  {
    var s' := WithTable(s, p, i, f);
    forall q {:trigger Hung(s', q)} | (q in s'.tables && q != []) || q in s'.leaves ensures Hung(s', q) {
      assert (p + [i])[..|p|] == p;
      if q != p + [i] { assert Hung(s, q); }
    }
    assert LowerPath(p + [i]) by {
      assert forall k :: 0 <= k < |p| ==> (p + [i])[k] == p[k];
    }
    forall q | q in s.tables ensures s.tables[q] != f {
      TableFrameIn(s, q);
    }
  }

  /** A present entry for a fresh, zeroed frame is a new table without anything below it. */
  lemma AddTable(phys: Phys, phys': Phys, s: Space, s': Space, p: Path, i: nat, e: Word, f: FrameNo)
    requires Rep(phys, s) && p in s.tables && |p| < 3 && LowerIndex(|p|, i) && p + [i] !in s.tables
    requires f !in TableFrames(s) && Passes(e) && e.frame == f && s' == WithTable(s, p, i, f)
    requires phys' == phys[s.tables[p] := phys[s.tables[p]][i := e]][f := ZeroPage()]
    ensures Rep(phys', s')
  {
    hide Slots, UserPaths, Passes;
    WithTableShape(s, p, i, f);
    AddTableEntries(phys, phys', s, s', p, i, e, f);
    AddTableSlots(phys, phys', s, s', p, i, e, f);
    AddTableUsers(phys, phys', s, s', p, i, f);
  }

  /** The entries of the old tables and of the new one. */
  lemma AddTableEntries(phys: Phys, phys': Phys, s: Space, s': Space, p: Path, i: nat, e: Word, f: FrameNo)
    requires Shape(s) && InMemory(phys, s) && p in s.tables && i < ENTRIES && p + [i] !in s.tables
    requires f !in TableFrames(s) && s' == WithTable(s, p, i, f)
    requires phys' == phys[s.tables[p] := phys[s.tables[p]][i := e]][f := ZeroPage()]
    ensures InMemory(phys', s')
    ensures forall q, j: nat :: q in s.tables && j < ENTRIES ==>
      EntryAt(phys', s', q, j) == if q == p && j == i then e else EntryAt(phys, s, q, j)
    ensures forall j: nat :: j < ENTRIES ==> EntryAt(phys', s', p + [i], j) == ZERO
  {
    forall q | q in s.tables ensures s.tables[q] != f {
      TableFrameIn(s, q);
    }
  }

  lemma AddTableSlots(phys: Phys, phys': Phys, s: Space, s': Space, p: Path, i: nat, e: Word, f: FrameNo)
    requires Shape(s) && InMemory(phys, s) && Slots(phys, s)
    requires p in s.tables && |p| < 3 && LowerIndex(|p|, i) && p + [i] !in s.tables
    requires Passes(e) && e.frame == f && s' == WithTable(s, p, i, f) && InMemory(phys', s')
    requires forall q, j: nat :: q in s.tables && j < ENTRIES ==>
      EntryAt(phys', s', q, j) == if q == p && j == i then e else EntryAt(phys, s, q, j)
    requires forall j: nat :: j < ENTRIES ==> EntryAt(phys', s', p + [i], j) == ZERO
    ensures Slots(phys', s')
  {
    ZeroNotPresent();
    forall q, j: nat | q in s'.tables && |q| < 3 && LowerIndex(|q|, j) ensures TableSlot(phys', s', q, j) {
      PathEnd(q, j, p, i);
      if q != p + [i] { assert TableSlot(phys, s, q, j); } else { Childless(s, q, j); }
    }
    forall q, j: nat | q in s'.tables && |q| == 3 && LowerIndex(|q|, j) ensures LeafSlot(phys', s', q, j) {
      if q != p + [i] { assert LeafSlot(phys, s, q, j); } else { Childless(s, q, j); }
    }
  }

  /** Every user path stays one: it cannot have led through the slot that was empty. */
  lemma AddTableUsers(phys: Phys, phys': Phys, s: Space, s': Space, p: Path, i: nat, f: FrameNo)
    requires Shape(s) && InMemory(phys, s) && UserPaths(phys, s)
    requires p in s.tables && |p| < 3 && p + [i] !in s.tables && s' == WithTable(s, p, i, f) && InMemory(phys', s')
    requires forall q, j: nat :: q in s.tables && j < ENTRIES && !(q == p && j == i) ==>
      EntryAt(phys', s', q, j) == EntryAt(phys, s, q, j)
    ensures UserPaths(phys', s')
  {
    forall q | q in s'.leaves && User(EntryFlags(s'.leaves[q])) ensures UserUpTo(phys', s', q, 3) {
      forall k | 0 <= k < 3 && k < |q| ensures UserAt(phys', s', q[..k], q[k]) {
        assert UserAt(phys, s, q[..k], q[k]);
        LeafTables(s, q, k);
      }
    }
  }

  /** A new table below p does not concern the entries above p. */
  lemma AddTableUpTo(phys: Phys, phys': Phys, s: Space, s': Space, p: Path, i: nat, f: FrameNo, q: Path)
    requires s' == WithTable(s, p, i, f) && p + [i] !in s.tables && InMemory(phys', s')
    requires forall q, j: nat :: q in s.tables && s.tables[q] in phys && j < ENTRIES && !(q == p && j == i) ==>
      EntryAt(phys', s', q, j) == EntryAt(phys, s, q, j)
    requires UserUpTo(phys, s, q, |p|)
    ensures UserUpTo(phys', s', q, |p|)
  {
    forall k | 0 <= k < |p| && k < |q| ensures UserAt(phys', s', q[..k], q[k]) {
      assert UserAt(phys, s, q[..k], q[k]);
    }
  }

  lemma UserStep(phys: Phys, s: Space, q: Path, n: nat)
    requires n < |q| && UserUpTo(phys, s, q, n) && UserAt(phys, s, q[..n], q[n])
    ensures UserUpTo(phys, s, q, n + 1)
  {
  }

  /** All the tables on the way to a mapped page exist. */
  lemma {:induction false} LeafTables(s: Space, q: Path, k: nat)
    requires Shape(s) && q in s.leaves && k < 4
    ensures q[..k] in s.tables
    ensures k < 3 ==> q[..k] + [q[k]] in s.tables
    decreases 3 - k
  {
    if k == 3 {
      assert Hung(s, q);
    } else {
      LeafTables(s, q, k + 1);
      assert Hung(s, q[..k + 1]) && q[..k + 1][..k] == q[..k] && q[..k] + [q[k]] == q[..k + 1];
    }
  }

  /** Writing the leaf entry of page p+[i] updates the flat map at that page only. */
  ghost function WithLeaf(s: Space, q: Path, e: Word): Space {
    s.(leaves := if IsPresent(e) then s.leaves[q := e] else s.leaves - {q})
  }

  lemma WithLeafShape(s: Space, p: Path, i: nat, e: Word)
    requires Shape(s) && p in s.tables && |p| == 3 && LowerIndex(|p|, i)
    ensures Shape(WithLeaf(s, p + [i], e))
  {
    var s' := WithLeaf(s, p + [i], e);
    forall q {:trigger Hung(s', q)} | (q in s'.tables && q != []) || q in s'.leaves ensures Hung(s', q) {
      assert (p + [i])[..|p|] == p;
      if q != p + [i] { assert Hung(s, q); }
    }
    assert LowerPath(p + [i]) by {
      assert forall k :: 0 <= k < |p| ==> (p + [i])[k] == p[k];
    }
  }

  lemma SetLeaf(phys: Phys, phys': Phys, s: Space, s': Space, p: Path, i: nat, e: Word)
    requires Rep(phys, s) && p in s.tables && |p| == 3 && LowerIndex(|p|, i)
    requires phys' == phys[s.tables[p] := phys[s.tables[p]][i := e]] && s' == WithLeaf(s, p + [i], e)
    requires IsPresent(e) && User(EntryFlags(e)) ==> UserUpTo(phys, s, p + [i], 3)
    ensures Rep(phys', s')
  {
    hide UserPaths, UserUpTo, Passes, Shape;
    WithLeafShape(s, p, i, e);
    forall q, j | q in s'.tables && |q| < 3 && LowerIndex(|q|, j) ensures TableSlot(phys', s', q, j) {
      OneSlot(phys, s, p, i, e, q, j);
      assert TableSlot(phys, s, q, j);
    }
    forall q, j | q in s'.tables && |q| == 3 && LowerIndex(|q|, j) ensures LeafSlot(phys', s', q, j) {
      OneSlot(phys, s, p, i, e, q, j);
      PathEnd(q, j, p, i);
      assert LeafSlot(phys, s, q, j);
    }
    SetLeafUsers(phys, phys', s, s', p, i, e);
  }

  lemma SetLeafUsers(phys: Phys, phys': Phys, s: Space, s': Space, p: Path, i: nat, e: Word)
    requires Shape(s) && InMemory(phys, s) && UserPaths(phys, s) && p in s.tables && |p| == 3 && i < ENTRIES
    requires phys' == phys[s.tables[p] := phys[s.tables[p]][i := e]]
    requires s' == WithLeaf(s, p + [i], e)
    requires IsPresent(e) && User(EntryFlags(e)) ==> UserUpTo(phys, s, p + [i], 3)
    ensures UserPaths(phys', s')
  {
    forall q | q in s'.leaves && User(EntryFlags(s'.leaves[q])) ensures UserUpTo(phys', s', q, 3) {
      forall k | 0 <= k < 3 && k < |q| ensures UserAt(phys', s', q[..k], q[k]) {
        assert UserAt(phys, s, q[..k], q[k]);
        OneSlot(phys, s, p, i, e, q[..k], q[k]);
      }
    }
  }

  datatype Translation = Fault | To(frame: FrameNo, writable: bool, user: bool, noExecute: bool)

  /** The processor's four-level walk (Intel SDM volume 3A, 4-level paging): a page can be
      written or accessed by user code only if every entry allows it, and executed only if no
      entry forbids it. */
  ghost function Translate(phys: Phys, table: FrameNo, q: Path): Translation
    decreases |q|
  {
    if q == [] || table !in phys || q[0] >= ENTRIES || !IsPresent(phys[table][q[0]]) then Fault
    else
      var e := phys[table][q[0]];
      var f := EntryFlags(e);
      if |q| == 1 then To(e.frame, Writable(f), User(f), NoExecute(f))
      else
        match Translate(phys, e.frame, q[1..])
        case Fault => Fault
        case To(frame, w, u, n) => To(frame, w && Writable(f), u && User(f), n || NoExecute(f))
  }

  ghost function LeafTranslation(e: Word): Translation {
    To(e.frame, Writable(EntryFlags(e)), User(EntryFlags(e)), NoExecute(EntryFlags(e)))
  }

  /** From the table at depth k on the way to q, the walk yields the leaf entry's own frame
      and permissions, save that user access also needs the entries still to be passed. */
  lemma {:induction false} TranslateFrom(phys: Phys, s: Space, q: Path, k: nat)
    requires Rep(phys, s) && |q| == 4 && LowerPath(q) && k <= 3 && q[..k] in s.tables
    ensures Translate(phys, s.tables[q[..k]], q[k..]).Fault? <==> q !in s.leaves
    ensures q in s.leaves ==> Translate(phys, s.tables[q[..k]], q[k..]) == LeafTranslation(s.leaves[q])
    decreases 3 - k
  {
    var p, i := q[..k], q[k];
    assert q[k..][0] == i && q[k..][1..] == q[k + 1..] && p + [i] == q[..k + 1];
    if k == 3 {
      assert LeafSlot(phys, s, p, i) && p + [i] == q;
    } else {
      assert TableSlot(phys, s, p, i);
      if p + [i] in s.tables {
        TranslateFrom(phys, s, q, k + 1);
        if q in s.leaves && User(EntryFlags(s.leaves[q])) { assert UserAt(phys, s, q[..k], q[k]); }
      } else if q in s.leaves {
        LeafTables(s, q, k);
      }
    }
  }

  /** What the processor sees is exactly the flat map, for every lower-half page. */
  lemma HardwareSeesFlatMap(phys: Phys, s: Space, q: Path)
    requires Rep(phys, s) && |q| == 4 && LowerPath(q)
    ensures Translate(phys, s.tables[[]], q) == if q in s.leaves then LeafTranslation(s.leaves[q]) else Fault
  {
    assert q[..0] == [] && q[0..] == q;
    TranslateFrom(phys, s, q, 0);
  }

  const PAGE_SIZE := 4096
  const LOWER_END := 0x8000_0000_0000

  /** get_pml4_idx, get_pml3_idx, get_pd_idx and get_pt_idx. */
  function PathOf(virt: nat): (q: Path)
    ensures |q| == 4
  {
    [virt / 0x80_0000_0000 % 512, virt / 0x4000_0000 % 512, virt / 0x20_0000 % 512, virt / 0x1000 % 512]
  }

  /** The virtual address that the walk puts together from four indices. */
  function VirtOf(q: Path): nat
    requires |q| == 4
  {
    q[0] * 0x80_0000_0000 + q[1] * 0x4000_0000 + q[2] * 0x20_0000 + q[3] * 0x1000
  }

  /** Paths and lower-half pages correspond one to one. */
  lemma VirtRoundTrip(q: Path)
    requires |q| == 4 && LowerPath(q)
    ensures VirtOf(q) < LOWER_END && VirtOf(q) % PAGE_SIZE == 0 && PathOf(VirtOf(q)) == q
  {
    assert LowerIndex(0, q[0]) && LowerIndex(1, q[1]) && LowerIndex(2, q[2]) && LowerIndex(3, q[3]);
    Digits(q[0], q[1], q[2], q[3]);
  }

  lemma Digits(a: nat, b: nat, c: nat, d: nat)
    requires a < 256 && b < 512 && c < 512 && d < 512
    ensures var v := a * 0x80_0000_0000 + b * 0x4000_0000 + c * 0x20_0000 + d * 0x1000;
      && v < LOWER_END && v % PAGE_SIZE == 0
      && v / 0x80_0000_0000 % 512 == a && v / 0x4000_0000 % 512 == b
      && v / 0x20_0000 % 512 == c && v / 0x1000 % 512 == d
  {
    var v := a * 0x80_0000_0000 + b * 0x4000_0000 + c * 0x20_0000 + d * 0x1000;
    DivBy(v, a, 0x80_0000_0000, b * 0x4000_0000 + c * 0x20_0000 + d * 0x1000);
    DivBy(v, a * 512 + b, 0x4000_0000, c * 0x20_0000 + d * 0x1000);
    DivBy(v, (a * 512 + b) * 512 + c, 0x20_0000, d * 0x1000);
    DivBy(v, ((a * 512 + b) * 512 + c) * 512 + d, 0x1000, 0);
    DivBy(a * 512 + b, a, 512, b);
    DivBy((a * 512 + b) * 512 + c, a * 512 + b, 512, c);
    DivBy(((a * 512 + b) * 512 + c) * 512 + d, (a * 512 + b) * 512 + c, 512, d);
  }

  lemma DivBy(v: nat, m: nat, unit: nat, r: nat)
    requires r < unit && v == m * unit + r
    ensures v / unit == m && v % unit == r
  {
    var n, k := v / unit, v % unit;
    assert v == n * unit + k;
    assert (m - n) * unit == k - r;
    if m > n { AtLeastOnce(m - n, unit); }
    if n > m {
      assert (n - m) * unit == r - k;
      AtLeastOnce(n - m, unit);
    }
  }

  lemma AtLeastOnce(n: int, unit: nat)
    requires n >= 1
    ensures n * unit >= unit
  {
  }

  /** p comes before q: at the first level where they differ it has the lower index. */
  ghost predicate Before(p: Path, q: Path)
    requires |p| == |q| == 4
  {
    || p[0] < q[0]
    || (p[0] == q[0] && p[1] < q[1])
    || (p[0] == q[0] && p[1] == q[1] && p[2] < q[2])
    || (p[0] == q[0] && p[1] == q[1] && p[2] == q[2] && p[3] < q[3])
  }

  /** Pages come in the order of their paths, level by level from the root table down. */
  lemma PathOrder(p: Path, q: Path)
    requires |p| == |q| == 4 && LowerPath(p) && LowerPath(q)
    ensures VirtOf(p) < VirtOf(q) <==> Before(p, q)
  {
    forall k | 0 <= k < 4 ensures p[k] < 512 && q[k] < 512 { assert LowerIndex(k, p[k]) && LowerIndex(k, q[k]); }
    var p1, q1 := p[0] * 512 + p[1], q[0] * 512 + q[1];
    DigitOrder(p[0], p[1], q[0], q[1]);
    DigitOrder(p1, p[2], q1, q[2]);
    DigitOrder(p1 * 512 + p[2], p[3], q1 * 512 + q[2], q[3]);
    assert VirtOf(p) == ((p1 * 512 + p[2]) * 512 + p[3]) * 0x1000;
    assert VirtOf(q) == ((q1 * 512 + q[2]) * 512 + q[3]) * 0x1000;
  }

  lemma DigitOrder(m: nat, a: nat, n: nat, b: nat)
    requires a < 512 && b < 512
    ensures m * 512 + a < n * 512 + b <==> m < n || (m == n && a < b)
    ensures m * 512 + a == n * 512 + b <==> m == n && a == b
  {
  }

  lemma PathRoundTrip(virt: nat)
    requires virt < LOWER_END
    ensures LowerPath(PathOf(virt)) && VirtOf(PathOf(virt)) == virt / PAGE_SIZE * PAGE_SIZE
  {
    var n := virt / 0x1000;
    assert virt / 0x20_0000 == n / 512 && virt / 0x4000_0000 == n / 512 / 512;
    assert virt / 0x80_0000_0000 == n / 512 / 512 / 512 < 256;
  }
}
