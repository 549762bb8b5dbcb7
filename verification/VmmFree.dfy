/** vmm_free and vmm_copy as a whole: where every frame comes from and goes to. */
module VmmFree {
  import opened Pte
  import opened PageTables
  import opened Vmm
  import opened VmmCopy
  import Vma

  /** Path r, of a table or of a page, leads through one of the slots lo..hi-1 of table p. */
  ghost predicate Through(p: Path, lo: nat, hi: nat, r: Path) {
    |p| < |r| && r[..|p|] == p && lo <= r[|p|] < hi
  }

  /** The frames of all tables and pages below these slots. */
  ghost function Below(s: Space, p: Path, lo: nat, hi: nat): set<FrameNo> {
    (set r | r in s.tables && Through(p, lo, hi, r) :: s.tables[r])
    + (set q | q in s.leaves && Through(p, lo, hi, q) :: s.leaves[q].frame)
  }

  /** A space whose frames can all be given back: each is used once and is real memory. */
  ghost predicate Whole(phys: Phys, s: Space) {
    Rep(phys, s) && Separate(s) && Frames(s) <= phys.Keys && 0 !in Frames(s)
  }

  lemma BelowJoin(s: Space, p: Path, lo: nat, mid: nat, hi: nat)
    requires lo <= mid <= hi
    ensures Below(s, p, lo, hi) == Below(s, p, lo, mid) + Below(s, p, mid, hi)
  {
    assert forall r :: Through(p, lo, hi, r) <==> Through(p, lo, mid, r) || Through(p, mid, hi, r);
  }

  lemma BelowApart(phys: Phys, s: Space, p: Path, lo: nat, mid: nat, hi: nat)
    requires Whole(phys, s) && lo <= mid <= hi
    ensures Below(s, p, lo, mid) !! Below(s, p, mid, hi)
    ensures Below(s, p, lo, hi) <= Frames(s)
  {
    forall f | f in Below(s, p, lo, mid) ensures f !in Below(s, p, mid, hi) {
      ApartAt(phys, s, p, lo, mid, hi, f);
    }
  }

  /** Frame f is that of a table or page below these slots. */
  ghost predicate BelowAt(s: Space, p: Path, lo: nat, hi: nat, f: FrameNo) {
    || (exists r :: r in s.tables && Through(p, lo, hi, r) && s.tables[r] == f)
    || (exists q :: q in s.leaves && Through(p, lo, hi, q) && s.leaves[q].frame == f)
  }

  lemma BelowIs(s: Space, p: Path, lo: nat, hi: nat, f: FrameNo)
    ensures f in Below(s, p, lo, hi) <==> BelowAt(s, p, lo, hi, f)
  {
  }

  lemma ApartAt(phys: Phys, s: Space, p: Path, lo: nat, mid: nat, hi: nat, f: FrameNo)
    requires Whole(phys, s) && f in Below(s, p, lo, mid)
    ensures f !in Below(s, p, mid, hi)
  {
    hide Below, InMemory, Slots, UserPaths, Hung;
    BelowIs(s, p, lo, mid, f);
    BelowIs(s, p, mid, hi, f);
    if r :| r in s.tables && Through(p, lo, mid, r) && s.tables[r] == f {
      TableFrameIn(s, r);
      forall r' | r' in s.tables && s.tables[r'] == f ensures r' == r {}
    } else {
      var q :| q in s.leaves && Through(p, lo, mid, q) && s.leaves[q].frame == f;
      assert f in LeafFrames(s);
      forall r' | r' in s.tables ensures s.tables[r'] != f { TableFrameIn(s, r'); }
    }
  }

  lemma ThroughSlot(p: Path, i: nat, r: Path)
    ensures Through(p, i, i + 1, r) <==> r == p + [i] || (|p| + 1 < |r| && r[..|p| + 1] == p + [i])
  {
    if |p| < |r| {
      assert r[..|p| + 1] == r[..|p|] + [r[|p|]];
      PathEnd(r[..|p|], r[|p|], p, i);
      if |r| == |p| + 1 { assert r[..|p| + 1] == r; }
    }
  }

  /** Nothing hangs below an empty slot. */
  lemma BelowEmpty(phys: Phys, s: Space, p: Path, i: nat)
    requires Rep(phys, s) && p in s.tables && |p| <= 3 && LowerIndex(|p|, i) && !IsPresent(EntryAt(phys, s, p, i))
    ensures Below(s, p, i, i + 1) == {}
  {
    if |p| < 3 { assert TableSlot(phys, s, p, i); }
    forall q | q in s.leaves ensures !Through(p, i, i + 1, q) {
      SlotIsTree(p, i, q);
      if InTree(p + [i], q) { EmptySlot(phys, s, p, i, q); }
    }
    forall r | r in s.tables ensures !Through(p, i, i + 1, r) {
      ThroughSlot(p, i, r);
      if |p| < |r| { TablePrefix(s, r, |p| + 1); }
    }
  }

  /** Every table on the way to a table exists. */
  lemma {:induction false} TablePrefix(s: Space, r: Path, k: nat)
    requires Shape(s) && r in s.tables && k <= |r|
    ensures r[..k] in s.tables
    decreases |r| - k
  {
    if k == |r| {
      assert r[..k] == r;
    } else {
      TablePrefix(s, r, k + 1);
      assert Hung(s, r[..k + 1]) && r[..k + 1][..k] == r[..k];
    }
  }

  /** Below the slot of a page there is the page's frame only. */
  lemma BelowPage(phys: Phys, s: Space, p: Path, i: nat)
    requires Rep(phys, s) && p in s.tables && |p| == 3 && LowerIndex(|p|, i) && IsPresent(EntryAt(phys, s, p, i))
    ensures Below(s, p, i, i + 1) == {EntryAt(phys, s, p, i).frame}
  {
    assert LeafSlot(phys, s, p, i);
    ThroughSlot(p, i, p + [i]);
    forall q | q in s.leaves && Through(p, i, i + 1, q) ensures q == p + [i] {
      ThroughSlot(p, i, q);
    }
    assert forall r :: r in s.tables ==> !Through(p, i, i + 1, r);
    assert p + [i] in s.leaves;
  }

  /** Below the slot of a table there is its frame and everything below its own slots. */
  lemma BelowTable(phys: Phys, s: Space, p: Path, i: nat)
    requires Rep(phys, s) && p in s.tables && |p| < 3 && p + [i] in s.tables
    ensures Below(s, p, i, i + 1) == Below(s, p + [i], 0, ENTRIES) + {s.tables[p + [i]]}
  {
    forall r | (r in s.tables || r in s.leaves)
      ensures Through(p, i, i + 1, r) <==> r == p + [i] || Through(p + [i], 0, ENTRIES, r)
    {
      ThroughSlot(p, i, r);
      assert |p| + 1 < |r| ==> LowerIndex(|p| + 1, r[|p| + 1]);
    }
    assert p + [i] !in s.leaves;
  }

  /** A table's own frame is not below its slots. */
  lemma TableNotBelow(phys: Phys, s: Space, p: Path, i: nat)
    requires Whole(phys, s) && p + [i] in s.tables
    ensures s.tables[p + [i]] !in Below(s, p + [i], 0, ENTRIES)
    ensures s.tables[p + [i]] in Frames(s)
  {
    TableFrameIn(s, p + [i]);
  }

  /** One turn of the destroying walk, at slot i of table p. */
  method DestroySlot(m: Machine, p: Path, i: nat, table: FrameNo, ghost s: Space)
    requires m.Valid() && Whole(m.phys, s) && p in s.tables && |p| <= 3 && table == s.tables[p] && LowerIndex(|p|, i)
    requires Below(s, p, i, i + 1) !! m.free
    modifies m`win, m`free
    ensures m.Valid() && m.free == old(m.free) + Below(s, p, i, i + 1)
    decreases 3 - |p|, 0
  {
    hide Rep, Separate, Below, Frames;
    TableShown(m.phys, s, p);
    var w := WindowAt(|p|);
    m.ScratchMap(w, table);
    var e := m.phys[m.win[w]][i];
    BelowApart(m.phys, s, p, i, i, i + 1);
    if !IsPresent(e) {
      BelowEmpty(m.phys, s, p, i);
    } else if |p| == 3 {
      BelowPage(m.phys, s, p, i);
      assert e.frame in Below(s, p, i, i + 1);
      m.FreeFrame(e.frame);
    } else {
      SlotAt(m.phys, s, p, i);
      BelowTable(m.phys, s, p, i);
      TableNotBelow(m.phys, s, p, i);
      DestroyWalk(m, p + [i], e.frame, s);
      m.FreeFrame(e.frame);
    }
  }

  /** The nested loops of walk_lower_mappings with destroy_mapping and free_tables set. */
  method DestroyWalk(m: Machine, p: Path, table: FrameNo, ghost s: Space)
    requires m.Valid() && Whole(m.phys, s) && p in s.tables && |p| <= 3 && table == s.tables[p]
    requires Below(s, p, 0, Limit(|p|)) !! m.free
    modifies m`win, m`free
    ensures m.Valid() && m.free == old(m.free) + Below(s, p, 0, Limit(|p|))
    decreases 3 - |p|, 1
  {
    hide Rep, Separate, Below, Frames;
    ghost var free, n := m.free, Limit(|p|);
    BelowNone(s, p);
    for i := 0 to Limit(|p|)
      invariant m.Valid() && m.free == free + Below(s, p, 0, i)
    {
      BelowJoin(s, p, 0, i, i + 1);
      BelowJoin(s, p, 0, i + 1, n);
      BelowApart(m.phys, s, p, 0, i, i + 1);
      DestroySlot(m, p, i, table, s);
    }
  }

  lemma BelowNone(s: Space, p: Path)
    ensures Below(s, p, 0, 0) == {}
  {
  }

  /** The frames of a space are its root and what is below the root's slots. */
  lemma FramesFromRoot(phys: Phys, s: Space)
    requires Whole(phys, s)
    ensures [] in s.tables && Frames(s) == Below(s, [], 0, Limit(0)) + {s.tables[[]]}
    ensures s.tables[[]] !in Below(s, [], 0, Limit(0)) && s.tables[[]] in phys && s.tables[[]] != 0
  {
    forall r | (r in s.tables && r != []) || r in s.leaves ensures Through([], 0, Limit(0), r) {
      assert r[..0] == [] && LowerIndex(0, r[0]);
    }
    TableFrameIn(s, []);
  }

  /** The frames that the kernel's half of a root table leads to. */
  ghost function UpperFrames(phys: Phys, root: FrameNo): set<FrameNo>
    requires root in phys
  {
    set i | KERNEL_PML4_FIRST <= i < ENTRIES :: phys[root][i].frame
  }

  /** vmm_free: everything the space is made of goes back to the supply, each frame once, and nothing
      that only the kernel's half leads to. */
  method Free(m: Machine, root: FrameNo, ghost s: Space)
    requires m.Valid() && Whole(m.phys, s) && [] in s.tables && s.tables[[]] == root && Frames(s) !! m.free
    modifies m`win, m`free
    ensures m.Valid() && m.free == old(m.free) + Frames(s)
    ensures root in m.phys && (UpperFrames(m.phys, root) - Frames(s)) * m.free <= old(m.free)
  {
    hide Rep, Separate, Below, Frames, UpperFrames;
    FramesFromRoot(m.phys, s);
    DestroyWalk(m, [], root, s);
    m.FreeFrame(root);
  }

  ghost function EmptySpace(root: FrameNo): Space {
    Space(map[[] := root], map[])
  }

  lemma EmptyRep(phys: Phys, root: FrameNo)
    requires root in phys && forall i :: 0 <= i < KERNEL_PML4_FIRST ==> phys[root][i] == ZERO
    ensures Rep(phys, EmptySpace(root)) && Separate(EmptySpace(root)) && Frames(EmptySpace(root)) == {root}
  {
    ZeroNotPresent();
    var s := EmptySpace(root);
    forall p, i: nat | p in s.tables && |p| < 3 && LowerIndex(|p|, i) ensures TableSlot(phys, s, p, i) {
      assert phys[root][i] == ZERO && p + [i] !in s.tables;
    }
    assert [] in s.tables && forall p :: p in s.tables ==> p == [];
    assert TableFrames(s) == {root};
    assert LeafFrames(s) == {};
  }

  /** The upper half of a new PML4: the kernel's entries, except that the recursive slot leads
      to the PML4 itself. */
  function UpperEntry(kernel: Page, root: FrameNo, flags: Flags, i: nat): Word
    requires i < ENTRIES
  {
    if i == RECURSIVE_IDX then Pack(root, Flags(0, PRESENT | WRITABLE | (flags.low & USER))) else kernel[i]
  }

  /** The loop of vmm_new over the kernel's half; window L3 shows the kernel's PML4. */
  method FillUpper(m: Machine, root: FrameNo, kernelRoot: FrameNo)
    requires m.Shows(L4) && m.Shows(L3) && m.win[L4] == root && m.win[L3] == kernelRoot && root != kernelRoot
    requires m.phys[root] == ZeroPage()
    modifies m`phys
    ensures OnlyChanged(old(m.phys), m.phys, {root})
    ensures forall i :: 0 <= i < KERNEL_PML4_FIRST ==> m.phys[root][i] == ZERO
    ensures forall i :: KERNEL_PML4_FIRST <= i < ENTRIES && i != RECURSIVE_IDX ==>
      m.phys[root][i] == m.phys[kernelRoot][i]
  {
    for idx := KERNEL_PML4_FIRST to ENTRIES
      invariant OnlyChanged(old(m.phys), m.phys, {root})
      invariant forall i :: 0 <= i < KERNEL_PML4_FIRST ==> m.phys[root][i] == ZERO
      invariant forall i :: KERNEL_PML4_FIRST <= i < idx && i != RECURSIVE_IDX ==>
        m.phys[root][i] == m.phys[kernelRoot][i]
    {
      if idx != RECURSIVE_IDX {
        m.Write(L4, idx, m.phys[m.win[L3]][idx]);
      }
    }
  }

  method New(m: Machine, kernelRoot: FrameNo, flags: Flags) returns (root: FrameNo, ghost s: Space)
    requires m.Valid() && kernelRoot in m.phys && kernelRoot !in m.free
    modifies m
    ensures m.Valid() && (root == 0 <==> old(m.free) == {}) && m.free == old(m.free) - {root}
    ensures OnlyChanged(old(m.phys), m.phys, {root}) && s == EmptySpace(root)
    ensures root == 0 ==> m.phys == old(m.phys)
    ensures root != 0 ==> root in old(m.free) && Rep(m.phys, s) && Separate(s) && Frames(s) == {root}
    ensures root != 0 ==> forall i :: KERNEL_PML4_FIRST <= i < ENTRIES ==>
      m.phys[root][i] == UpperEntry(m.phys[kernelRoot], root, flags, i)
  {
    hide Rep, Separate, Frames;
    root := m.AllocFrame();
    s := EmptySpace(root);
    if root == 0 { return; }
    m.ScratchMap(L4, root);
    m.ScratchMap(L3, kernelRoot);
    m.Clear(L4);
    FillUpper(m, root, kernelRoot);
    m.Write(L4, RECURSIVE_IDX, Pack(root, Flags(0, PRESENT | WRITABLE | (flags.low & USER))));
    EmptyRep(m.phys, root);
  }

  /** What vmm_copy promises about page q, in the processor's terms: the copy faults exactly
      where the source does and grants the same access, to a different frame with equal contents. */
  ghost predicate SameView(phys: Phys, srcRoot: FrameNo, dstRoot: FrameNo, q: Path) {
    match (Translate(phys, srcRoot, q), Translate(phys, dstRoot, q))
    case (Fault, Fault) => true
    case (To(f, w, u, n), To(f', w', u', n')) =>
      w == w' && u == u' && n == n' && f in phys && f' in phys && f != f' && phys[f] == phys[f']
    case _ => false
  }

  lemma CopyViews(phys: Phys, free0: set<FrameNo>, free: set<FrameNo>, src: Space, dst: Space, q: Path)
    requires SourceOk(phys, free0, src) && DestOk(phys, free0, free, dst) && TreeCopied(phys, src, dst, [])
    requires |q| == 4 && LowerPath(q)
    ensures [] in src.tables && [] in dst.tables && SameView(phys, src.tables[[]], dst.tables[[]], q)
  {
    HardwareSeesFlatMap(phys, src, q);
    HardwareSeesFlatMap(phys, dst, q);
    assert q[..0] == [] && InTree([], q);
    assert Matches(phys, src, dst, q);
    if q in src.leaves {
      assert src.leaves[q].frame in LeafFrames(src) && dst.leaves[q].frame in LeafFrames(dst);
    }
  }

  /** The kernel's half of a copy: the kernel's own entries, and a recursive slot with the user
      access of the source's. */
  ghost predicate SharesUpper(phys: Phys, srcRoot: FrameNo, kernelRoot: FrameNo, dstRoot: FrameNo) {
    && srcRoot in phys && kernelRoot in phys && dstRoot in phys
    && forall i :: KERNEL_PML4_FIRST <= i < ENTRIES ==>
      phys[dstRoot][i] == UpperEntry(phys[kernelRoot], dstRoot, EntryFlags(phys[srcRoot][RECURSIVE_IDX]), i)
  }

  lemma UpperShared(phys0: Phys, phys1: Phys, phys: Phys, free0: set<FrameNo>,
                    srcRoot: FrameNo, kernelRoot: FrameNo, dstRoot: FrameNo)
    requires srcRoot in phys0 && kernelRoot in phys0 && srcRoot !in free0 && kernelRoot !in free0 && dstRoot in free0
    requires OnlyChanged(phys0, phys1, {dstRoot}) && OnlyChanged(phys0, phys, free0) && UpperKept(phys1, phys, dstRoot)
    requires forall i :: KERNEL_PML4_FIRST <= i < ENTRIES ==>
      phys1[dstRoot][i] == UpperEntry(phys1[kernelRoot], dstRoot, EntryFlags(phys0[srcRoot][RECURSIVE_IDX]), i)
    ensures SharesUpper(phys, srcRoot, kernelRoot, dstRoot)
  {
  }

  /** A finished copy: every lower-half page as in the source, in frames of its own, and the kernel's
      half shared. */
  ghost predicate Clone(phys: Phys, src: Space, srcRoot: FrameNo, kernelRoot: FrameNo, dst: Space, dstRoot: FrameNo) {
    && Whole(phys, dst) && [] in dst.tables && dst.tables[[]] == dstRoot && |Frames(dst)| == Needs(src)
    && TreeCopied(phys, src, dst, []) && SharesUpper(phys, srcRoot, kernelRoot, dstRoot)
    && forall q :: |q| == 4 && LowerPath(q) ==> SameView(phys, srcRoot, dstRoot, q)
  }

  /** vmm_copy up to the copy of the area list, given memory for the new vmm_t. */
  method CopyPages(m: Machine, srcRoot: FrameNo, kernelRoot: FrameNo, ghost src: Space)
    returns (dstRoot: FrameNo, ghost dst: Space)
    requires m.Valid() && SourceOk(m.phys, m.free, src) && [] in src.tables && src.tables[[]] == srcRoot
    requires kernelRoot in m.phys && kernelRoot !in m.free
    modifies m
    ensures m.Valid() && SourceOk(m.phys, old(m.free), src)
    ensures OnlyChanged(old(m.phys), m.phys, old(m.free))
    ensures dstRoot == 0 <==> |old(m.free)| < Needs(src)
    ensures dstRoot == 0 ==> m.free == old(m.free)
    ensures dstRoot != 0 ==> m.free <= old(m.free) && Frames(dst) == old(m.free) - m.free
    ensures dstRoot != 0 ==> Clone(m.phys, src, srcRoot, kernelRoot, dst, dstRoot)
  {
    hide Rep, Separate, TreeCopied, TreeVacant, TreeElsewhere, OnlyChanged, LeafFrames, TableFrames, SameView;
    hide Needs, Partial, SourceOk, DestOk, Whole, Frames, UpperKept, SharesUpper, UpperFrames;
    ghost var phys0, free0 := m.phys, m.free;
    SourceRoot(m.phys, free0, src);
    m.ScratchMap(L4, srcRoot);
    var recursive := EntryFlags(m.phys[m.win[L4]][RECURSIVE_IDX]);
    dstRoot, dst := New(m, kernelRoot, recursive);
    ghost var phys1 := m.phys;
    StartCopy(phys0, phys1, free0, src, dstRoot);
    if dstRoot == 0 {
      RootNeeded(src);
      return;
    }
    FreshDest(phys1, free0, dstRoot);
    var ok;
    ok, dst := CopyWalk(m, [], srcRoot, dstRoot, src, dst, free0);
    ChangedVia(phys0, phys1, m.phys, {dstRoot}, free0 - LeafFrames(EmptySpace(dstRoot)), free0);
    WholeDest(phys0, m.phys, free0, m.free, dst);
    UpperShared(phys0, phys1, m.phys, free0, srcRoot, kernelRoot, dstRoot);
    if ok { CopyTakes(m.phys, free0, m.free, src, dst); }
    if !ok {
      Free(m, dstRoot, dst);
      dstRoot := 0;
      return;
    }
    forall q | |q| == 4 && LowerPath(q) ensures SameView(m.phys, srcRoot, dstRoot, q) {
      CopyViews(m.phys, free0, m.free, src, dst, q);
    }
  }

  /** vmm_copy: `made` tells whether there is memory for the new vmm_t, `list` is its list of areas, and
      `spares` are the nodes that slab_alloc gives for it.  The source's list is that of `nodes`. */
  method Copy(m: Machine, srcRoot: FrameNo, kernelRoot: FrameNo, made: bool,
              list: Vma.VmaList, nodes: map<int, Vma.Node>, head: int, spares: seq<int>,
              ghost order: seq<int>, ghost areas: seq<Vma.Area>, ghost src: Space)
    returns (dstRoot: FrameNo, ghost dst: Space)
    requires m.Valid() && SourceOk(m.phys, m.free, src) && [] in src.tables && src.tables[[]] == srcRoot
    requires kernelRoot in m.phys && kernelRoot !in m.free
    requires list.Valid() && list.nodes == map[] && Vma.Shows(nodes, head, order, areas) && Vma.Sorted(areas)
    requires |spares| >= |areas| && forall i, j :: 0 <= i < j < |spares| && spares[i] == spares[j] ==> spares[i] == 0
    modifies m, list
    ensures m.Valid() && SourceOk(m.phys, old(m.free), src) && list.Valid()
    ensures OnlyChanged(old(m.phys), m.phys, old(m.free))
    ensures dstRoot == 0 <==> !made || |old(m.free)| < Needs(src) || exists j :: 0 <= j < |areas| && spares[j] == 0
    ensures dstRoot == 0 ==> m.free == old(m.free) && list.nodes == map[]
    ensures dstRoot != 0 ==> m.free <= old(m.free) && Frames(dst) == old(m.free) - m.free
    ensures dstRoot != 0 ==> Clone(m.phys, src, srcRoot, kernelRoot, dst, dstRoot) && list.Contents() == areas
  {
    hide OnlyChanged, Needs, SourceOk, Frames, UpperFrames, Whole, TreeCopied, SharesUpper, SameView, Vma.Shows;
    hide Vma.Sorted;
    dstRoot, dst := 0, EmptySpace(0);
    ChangedNothing(m.phys, m.free);
    EmptyList(list);
    if !made { return; }
    dstRoot, dst := CopyPages(m, srcRoot, kernelRoot, src);
    if dstRoot == 0 { return; }
    var ok := list.CopyList(nodes, head, order, areas, spares);
    if !ok {
      Free(m, dstRoot, dst);
      list.Clear();
      dstRoot := 0;
    }
  }

  lemma EmptyList(list: Vma.VmaList)
    requires list.Valid() && list.nodes == map[]
    ensures list.head == 0
  {
  }

  lemma StartCopy(phys: Phys, phys1: Phys, free0: set<FrameNo>, src: Space, root: FrameNo)
    requires SourceOk(phys, free0, src) && OnlyChanged(phys, phys1, {root}) && (root == 0 || root in free0)
    requires 0 !in free0
    requires root == 0 ==> phys1 == phys
    ensures TreeVacant(EmptySpace(root), []) && Partial(src, EmptySpace(root))
    ensures SourceOk(phys1, free0, src) && OnlyChanged(phys, phys1, free0)
  {
    assert OnlyChanged(phys, phys1, free0);
    SourceKept(phys, phys1, free0, src, free0);
  }

  lemma RootNeeded(src: Space)
    requires [] in src.tables
    ensures Needs(src) > 0
  {
    assert [] in NeededTables(src);
  }

  lemma SamePages(phys: Phys, src: Space, dst: Space)
    requires Shape(src) && Shape(dst) && TreeCopied(phys, src, dst, [])
    ensures dst.leaves.Keys == src.leaves.Keys
  {
    forall q ensures q in src.leaves <==> q in dst.leaves {
      if |q| == 4 {
        assert q[..0] == [] && InTree([], q);
        assert Matches(phys, src, dst, q);
      }
    }
  }

  lemma CopyTakes(phys: Phys, free0: set<FrameNo>, free: set<FrameNo>, src: Space, dst: Space)
    requires SourceOk(phys, free0, src) && DestOk(phys, free0, free, dst) && TreeCopied(phys, src, dst, [])
    requires Partial(src, dst)
    ensures |Frames(dst)| == Needs(src) <= |free0|
  {
    hide Slots, UserPaths, InMemory, TreeCopied;
    SamePages(phys, src, dst);
    NeedsExactly(free0, free, src, dst);
  }

  lemma WholeDest(phys0: Phys, phys: Phys, free0: set<FrameNo>, free: set<FrameNo>, dst: Space)
    requires OnlyChanged(phys0, phys, free0) && free0 <= phys0.Keys && 0 !in free0 && DestOk(phys, free0, free, dst)
    ensures Whole(phys, dst) && free <= free0 && Frames(dst) == free0 - free
  {
  }

  lemma SourceRoot(phys: Phys, free0: set<FrameNo>, src: Space)
    requires SourceOk(phys, free0, src)
    ensures [] in src.tables && src.tables[[]] in phys && src.tables[[]] !in free0
  {
    TableFrameIn(src, []);
  }

  lemma FreshDest(phys: Phys, free0: set<FrameNo>, root: FrameNo)
    requires root in free0 && Rep(phys, EmptySpace(root)) && Separate(EmptySpace(root))
    requires Frames(EmptySpace(root)) == {root}
    ensures DestOk(phys, free0, free0 - {root}, EmptySpace(root))
  {
    hide Rep, Separate, Frames;
    assert free0 - (free0 - {root}) == {root};
  }

  /** A copy that is freed leaves the supply exactly as it was. */
  method CopyThenFree(m: Machine, srcRoot: FrameNo, kernelRoot: FrameNo, ghost src: Space)
    requires m.Valid() && SourceOk(m.phys, m.free, src) && [] in src.tables && src.tables[[]] == srcRoot
    requires kernelRoot in m.phys && kernelRoot !in m.free
    modifies m
    ensures m.Valid() && m.free == old(m.free) && OnlyChanged(old(m.phys), m.phys, old(m.free))
  {
    hide OnlyChanged, Needs, SourceOk, Whole, Frames, UpperFrames, TreeCopied, SharesUpper, SameView;
    ghost var dst;
    var dstRoot;
    dstRoot, dst := CopyPages(m, srcRoot, kernelRoot, src);
    if dstRoot != 0 {
      Free(m, dstRoot, dst);
    }
  }
}
