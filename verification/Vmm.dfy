/** The virtual memory manager of a non-kernel address space.

    Table frames are reached only through a few scratch windows: a window is a fixed virtual
    page that the code points at one frame after another, so a table pointer in the source is
    a window here, and what it shows changes whenever the window is pointed elsewhere.
  */
module Vmm {
  import opened Pte
  import opened PageTables

  const RECURSIVE_IDX := 510

  datatype Window = ScratchA | ScratchB | L4 | L3 | L2 | L1

  function WindowAt(depth: nat): Window {
    if depth == 0 then L4 else if depth == 1 then L3 else if depth == 2 then L2 else L1
  }

  /** Only frames of this set may have changed. */
  ghost predicate OnlyChanged(phys: Phys, phys': Phys, changed: set<FrameNo>) {
    phys'.Keys == phys.Keys && forall f :: f in phys && f !in changed ==> phys'[f] == phys[f]
  }

  /** The kernel's half of the root table is as it was. */
  ghost predicate UpperKept(phys: Phys, phys': Phys, root: FrameNo) {
    root in phys && root in phys' && forall i :: KERNEL_PML4_FIRST <= i < ENTRIES ==> phys'[root][i] == phys[root][i]
  }

  lemma UpperTrans(phys: Phys, phys1: Phys, phys2: Phys, root: FrameNo)
    requires UpperKept(phys, phys1, root) && UpperKept(phys1, phys2, root)
    ensures UpperKept(phys, phys2, root)
  {
  }

  lemma UpperNothing(phys: Phys, root: FrameNo)
    requires root in phys
    ensures UpperKept(phys, phys, root)
  {
  }

  lemma UpperSlot(phys: Phys, phys': Phys, s: Space, p: Path, i: nat, e: Word)
    requires Rep(phys, s) && p in s.tables && LowerIndex(|p|, i)
    requires phys' == phys[s.tables[p] := phys[s.tables[p]][i := e]]
    ensures UpperKept(phys, phys', s.tables[[]])
  {
    assert [] in s.tables;
  }

  lemma UpperTable(phys: Phys, phys': Phys, s: Space, p: Path, i: nat, e: Word, f: FrameNo)
    requires Rep(phys, s) && p in s.tables && LowerIndex(|p|, i) && f !in TableFrames(s)
    requires phys' == phys[s.tables[p] := phys[s.tables[p]][i := e]][f := ZeroPage()]
    ensures UpperKept(phys, phys', s.tables[[]])
  {
    TableFrameIn(s, []);
    UpperSlot(phys, phys[s.tables[p] := phys[s.tables[p]][i := e]], s, p, i, e);
  }

  /** The pages are the same, the old tables are still there, and the frames that left the
      supply are exactly the new tables. */
  ghost predicate Grows(s: Space, free: set<FrameNo>, s': Space, free': set<FrameNo>) {
    && s'.leaves == s.leaves
    && (forall p :: p in s.tables ==> p in s'.tables && s'.tables[p] == s.tables[p])
    && free' <= free
    && TableFrames(s') == TableFrames(s) + (free - free')
  }

  /** The frames of the space's tables are not in the supply. */
  ghost predicate Holds(phys: Phys, free: set<FrameNo>, s: Space) {
    Rep(phys, s) && TableFrames(s) !! free
  }

  /** Path r names a table on the way to page q. */
  ghost predicate OnWay(r: Path, q: Path) {
    |r| <= 3 && |r| <= |q| && r == q[..|r|]
  }

  /** Every table that only s' has is on the way to page q. */
  ghost predicate Along(s: Space, s': Space, q: Path) {
    forall r :: r in s'.tables ==> r in s.tables || OnWay(r, q)
  }

  lemma AlongTrans(s: Space, s1: Space, s2: Space, q: Path)
    requires Along(s, s1, q) && Along(s1, s2, q)
    ensures Along(s, s2, q)
  {
  }

  lemma AlongNothing(s: Space, q: Path)
    ensures Along(s, s, q)
  {
  }

  lemma AlongTable(s: Space, p: Path, i: nat, f: FrameNo, q: Path)
    requires |p| < 3 && |q| == 4 && p + [i] == q[..|p| + 1]
    ensures Along(s, WithTable(s, p, i, f), q)
  {
  }

  lemma GrowsTrans(s: Space, free: set<FrameNo>, s1: Space, free1: set<FrameNo>, s2: Space, free2: set<FrameNo>)
    requires Grows(s, free, s1, free1) && Grows(s1, free1, s2, free2)
    ensures Grows(s, free, s2, free2)
  {
  }

  lemma ChangedTrans(phys: Phys, phys1: Phys, phys2: Phys, s: Space, free: set<FrameNo>, s1: Space, free1: set<FrameNo>)
    requires Grows(s, free, s1, free1)
    requires OnlyChanged(phys, phys1, TableFrames(s) + free) && OnlyChanged(phys1, phys2, TableFrames(s1) + free1)
    ensures OnlyChanged(phys, phys2, TableFrames(s) + free)
  {
  }

  lemma WithTableGrows(s: Space, free: set<FrameNo>, p: Path, i: nat, f: FrameNo)
    requires p + [i] !in s.tables && f in free
    ensures Grows(s, free, WithTable(s, p, i, f), free - {f})
  {
    var s' := WithTable(s, p, i, f);
    assert free - (free - {f}) == {f};
    forall g | g in TableFrames(s') ensures g in TableFrames(s) + {f} {
      var q :| q in s'.tables && s'.tables[q] == g;
      if q != p + [i] { assert q in s.tables; }
    }
    forall g | g in TableFrames(s) + {f} ensures g in TableFrames(s') {
      if g == f {
        assert p + [i] in s'.tables;
      } else {
        var q :| q in s.tables && s.tables[q] == g;
        assert q in s'.tables;
      }
    }
  }

  class Machine {
    var phys: Phys
    var win: map<Window, FrameNo>
    var free: set<FrameNo>

    ghost predicate Valid()
      reads this
    {
      0 !in free && free <= phys.Keys
    }

    /** The window shows a frame of memory. */
    predicate Shows(w: Window)
      reads this
    {
      w in win && win[w] in phys
    }

    /** pmm_alloc_frame; 0 when the supply is empty. */
    method AllocFrame() returns (f: FrameNo)
      requires Valid()
      modifies `free
      ensures Valid()
      ensures f == 0 <==> old(free) == {}
      ensures f != 0 ==> f in old(free) && f in phys
      ensures free == old(free) - {f}
    {
      if free == {} { return 0; }
      f :| f in free;
      free := free - {f};
    }

    /** pmm_free_frame; giving back a frame that is already in the supply is a fault. */
    method FreeFrame(f: FrameNo)
      requires Valid() && f !in free && f in phys && f != 0
      modifies `free
      ensures Valid() && free == old(free) + {f}
    {
      free := free + {f};
    }

    method ScratchMap(w: Window, f: FrameNo)
      modifies `win
      ensures win == old(win)[w := f]
    {
      win := win[w := f];
    }

    method Write(w: Window, i: nat, e: Word)
      requires Shows(w) && i < ENTRIES
      modifies `phys
      ensures phys == old(phys)[win[w] := old(phys)[win[w]][i := e]]
    {
      phys := phys[win[w] := phys[win[w]][i := e]];
    }

    method Clear(w: Window)
      requires Shows(w)
      modifies `phys
      ensures phys == old(phys)[win[w] := ZeroPage()]
    {
      phys := phys[win[w] := seq(ENTRIES, _ => ZERO)];
    }

    /** memcpy of one page between two windows. */
    method CopyPage(to: Window, from: Window)
      requires Shows(to) && Shows(from)
      modifies `phys
      ensures phys == old(phys)[win[to] := old(phys)[win[from]]]
    {
      phys := phys[win[to] := phys[win[from]]];
    }

    /** The branch of walk_to_child_table that creates a missing table. */
    method NewChild(w: Window, i: nat, cw: Window, virt: nat, flags: Flags, ghost s: Space, ghost p: Path)
      returns (ok: bool, ghost s': Space)
      requires Valid() && Holds(phys, free, s)
      requires p in s.tables && |p| < 3 && Shows(w) && win[w] == s.tables[p] && cw != w
      requires virt < LOWER_END && p + [i] == PathOf(virt)[..|p| + 1] && p + [i] !in s.tables
      modifies this
      ensures Valid() && Holds(phys, free, s') && Grows(s, old(free), s', free)
      ensures OnlyChanged(old(phys), phys, TableFrames(s) + old(free))
      ensures ok ==> p + [i] in s'.tables && Shows(cw) && win[cw] == s'.tables[p + [i]]
      ensures ok && User(flags) && old(UserUpTo(phys, s, PathOf(virt), |p|)) ==>
        UserUpTo(phys, s', PathOf(virt), |p| + 1)
      ensures !ok ==> free == {} && s' == s
      ensures Along(s, s', PathOf(virt)) && UpperKept(old(phys), phys, s.tables[[]])
    {
      hide Rep, User, Passes, NormalizeTableFlags, PathOf, UserUpTo, Along, UpperKept;
      ghost var phys0, free0, q := phys, free, PathOf(virt);
      IndexOf(virt, p, i);
      var f := AllocFrame();
      if f == 0 {
        GrowsNothing(s, free0);
        AlongNothing(s, q);
        RootShown(phys, s);
        UpperNothing(phys, s.tables[[]]);
        return false, s;
      }
      var e := Pack(f, NormalizeTableFlags(IsHigherHalf(virt), flags));
      Write(w, i, e);
      ScratchMap(cw, f);
      Clear(cw);
      NewTableEntry(f, flags);
      TableFrameIn(s, p);
      s' := WithTable(s, p, i, f);
      AddTable(phys0, phys, s, s', p, i, e, f);
      WithTableGrows(s, free0, p, i, f);
      AlongTable(s, p, i, f, q);
      UpperTable(phys0, phys, s, p, i, e, f);
      NewChildUsers(phys0, phys, s, s', p, i, e, f, q);
      if User(flags) && UserUpTo(phys0, s, q, |p|) { UserStep(phys, s', q, |p|); }
      return true, s';
    }

    /** The branch of walk_to_child_table that passes through an existing table. */
    method TouchChild(w: Window, i: nat, cw: Window, virt: nat, flags: Flags, ghost s: Space, ghost p: Path)
      requires Valid() && Holds(phys, free, s)
      requires p in s.tables && |p| < 3 && Shows(w) && win[w] == s.tables[p] && cw != w
      requires virt < LOWER_END && p + [i] == PathOf(virt)[..|p| + 1] && p + [i] in s.tables
      modifies `phys, `win
      ensures Valid() && Holds(phys, free, s)
      ensures OnlyChanged(old(phys), phys, TableFrames(s) + free)
      ensures Shows(cw) && win[cw] == s.tables[p + [i]]
      ensures User(flags) && old(UserUpTo(phys, s, PathOf(virt), |p|)) ==> UserUpTo(phys, s, PathOf(virt), |p| + 1)
      ensures UpperKept(old(phys), phys, s.tables[[]])
    {
      hide Rep, UserUpTo, User, Passes, PathOf, ClearNx, SetUserAccess, UpperKept;
      ghost var phys0 := phys;
      IndexOf(virt, p, i);
      SlotAt(phys, s, p, i);
      TableFrameIn(s, p);
      var e0 := phys[win[w]][i];
      Write(w, i, ClearNx(phys[win[w]][i], flags));
      var e1 := SetUserAccess(phys[win[w]][i], IsHigherHalf(virt), flags);
      Write(w, i, e1);
      RewriteSlot(phys0, phys, s.tables[p], i, ClearNx(e0, flags), e1);
      UpperSlot(phys0, phys, s, p, i, e1);
      Touched(phys0, phys, s, p, i, flags, PathOf(virt), e1);
      ScratchMap(cw, phys[win[w]][i].frame);
    }

    /** walk_to_child_table for the table p shown in window w. */
    method WalkToChild(w: Window, i: nat, cw: Window, virt: nat, flags: Flags,
                       create: bool, ghost s: Space, ghost p: Path)
      returns (ok: bool, ghost s': Space)
      requires Valid() && Holds(phys, free, s)
      requires p in s.tables && |p| < 3 && Shows(w) && win[w] == s.tables[p] && cw != w
      requires virt < LOWER_END && p + [i] == PathOf(virt)[..|p| + 1]
      modifies this
      ensures Valid() && Holds(phys, free, s') && Grows(s, old(free), s', free)
      ensures OnlyChanged(old(phys), phys, TableFrames(s) + old(free))
      ensures ok ==> p + [i] in s'.tables && Shows(cw) && win[cw] == s'.tables[p + [i]]
      ensures ok && User(flags) && old(UserUpTo(phys, s, PathOf(virt), |p|)) ==>
        UserUpTo(phys, s', PathOf(virt), |p| + 1)
      ensures !ok ==> p + [i] !in s'.tables && (create ==> free == {})
      ensures !create ==> s' == s && free == old(free)
      ensures Along(s, s', PathOf(virt)) && UpperKept(old(phys), phys, s.tables[[]])
    {
      hide Rep, User, Passes, PathOf, UserUpTo, Grows, Along, UpperKept;
      RootShown(phys, s);
      UpperNothing(phys, s.tables[[]]);
      AlongNothing(s, PathOf(virt));
      IndexOf(virt, p, i);
      SlotAt(phys, s, p, i);
      GrowsNothing(s, free);
      if !IsPresent(phys[win[w]][i]) {
        ok, s' := false, s;
        if create {
          ok, s' := NewChild(w, i, cw, virt, flags, s, p);
        }
      } else {
        TouchChild(w, i, cw, virt, flags, s, p);
        ok, s' := true, s;
      }
    }

    /** walk_non_kernel_to_pt: on success window L1 shows the page table of `virt`. */
    method WalkToPt(root: FrameNo, virt: nat, flags: Flags, create: bool, ghost s: Space)
      returns (ok: bool, ghost s': Space)
      requires Valid() && Holds(phys, free, s) && root == s.tables[[]] && virt < LOWER_END
      modifies this
      ensures Valid() && Holds(phys, free, s') && Grows(s, old(free), s', free)
      ensures OnlyChanged(old(phys), phys, TableFrames(s) + old(free))
      ensures ok ==> PathOf(virt)[..3] in s'.tables && Shows(L1) && win[L1] == s'.tables[PathOf(virt)[..3]]
      ensures ok && User(flags) ==> UserUpTo(phys, s', PathOf(virt), 3)
      ensures !ok ==> PathOf(virt)[..3] !in s'.tables && (create ==> free == {})
      ensures !create ==> s' == s && free == old(free)
      ensures Along(s, s', PathOf(virt)) && s'.tables[[]] == root && UpperKept(old(phys), phys, root)
    {
      hide Rep, User, PathOf, Grows, OnlyChanged, TableFrames, Along, UpperKept;
      ghost var q, phys0, free0 := PathOf(virt), phys, free;
      PathPrefixes(virt);
      GrowsNothing(s, free);
      ChangedNothing(phys, TableFrames(s) + free);
      RootShown(phys, s);
      UpperNothing(phys, root);
      s' := s;
      if PathOf(virt)[0] == RECURSIVE_IDX { return false, s; }
      ScratchMap(L4, root);
      ok, s' := WalkToChild(L4, PathOf(virt)[0], L3, virt, flags, create, s, []);
      GrownRoot(s, free0, s', free);
      if !ok {
        MissingTable(phys, s', q, 1);
        return;
      }
      ghost var s1, phys1, free1 := s', phys, free;
      ok, s' := WalkToChild(L3, PathOf(virt)[1], L2, virt, flags, create, s1, q[..1]);
      GrowsTrans(s, free0, s1, free1, s', free);
      AlongTrans(s, s1, s', q);
      GrownRoot(s, free0, s', free);
      UpperTrans(phys0, phys1, phys, root);
      ChangedTrans(phys0, phys1, phys, s, free0, s1, free1);
      if !ok {
        MissingTable(phys, s', q, 2);
        return;
      }
      ghost var s2, phys2, free2 := s', phys, free;
      ok, s' := WalkToChild(L2, PathOf(virt)[2], L1, virt, flags, create, s2, q[..2]);
      GrowsTrans(s, free0, s2, free2, s', free);
      AlongTrans(s, s2, s', q);
      GrownRoot(s, free0, s', free);
      UpperTrans(phys0, phys2, phys, root);
      ChangedTrans(phys0, phys2, phys, s, free0, s2, free2);
    }

    /** map_at_paddr_with_leaf_flags, and the non-kernel path of map_at_paddr_internal: the
        tables are walked for `request`, and the page gets exactly the flags `leaf`. */
    method MapLeaf(root: FrameNo, virt: nat, f: FrameNo, leaf: Flags, request: Flags, ghost s: Space)
      returns (ok: bool, ghost s': Space)
      requires Valid() && Holds(phys, free, s) && root == s.tables[[]] && virt < LOWER_END
      requires User(leaf) ==> User(request)
      modifies this
      ensures Valid() && Holds(phys, free, s') && s'.tables[[]] == root
      ensures OnlyChanged(old(phys), phys, TableFrames(s) + old(free))
      ensures free <= old(free) && TableFrames(s') == TableFrames(s) + (old(free) - free)
      ensures s'.leaves == if ok then WithLeaf(s, PathOf(virt), Pack(f, leaf)).leaves else s.leaves
      ensures !ok ==> free == {} && PathOf(virt)[..3] !in s'.tables
      ensures Along(s, s', PathOf(virt)) && UpperKept(old(phys), phys, root)
    {
      hide Rep, User, PathOf, OnlyChanged, TableFrames, UserUpTo, UpperKept;
      ghost var phys0, free0 := phys, free;
      PathPrefixes(virt);
      RootShown(phys, s);
      ok, s' := WalkToPt(root, virt, request, true, s);
      if !ok { return; }
      ghost var phys1, s1, p := phys, s', PathOf(virt)[..3];
      Write(L1, PathOf(virt)[3], Pack(f, leaf));
      s' := WithLeaf(s1, PathOf(virt), Pack(f, leaf));
      SetLeaf(phys1, phys, s1, s', p, PathOf(virt)[3], Pack(f, leaf));
      WithLeafTables(s1, PathOf(virt), Pack(f, leaf));
      TableFrameIn(s1, p);
      ChangedOne(phys1, s1.tables[p], phys[s1.tables[p]], TableFrames(s1) + free);
      UpperSlot(phys1, phys, s1, p, PathOf(virt)[3], Pack(f, leaf));
      UpperTrans(phys0, phys1, phys, root);
      ChangedTrans(phys0, phys1, phys, s, free0, s1, free);
    }

    method MapAtPaddr(root: FrameNo, virt: nat, f: FrameNo, flags: Flags, ghost s: Space)
      returns (ok: bool, ghost s': Space)
      requires Valid() && Holds(phys, free, s) && root == s.tables[[]] && virt < LOWER_END
      modifies this
      ensures Valid() && Holds(phys, free, s') && s'.tables[[]] == root
      ensures forall q :: |q| == 4 && LowerPath(q) && !(ok && q == PathOf(virt)) ==>
        Translate(phys, root, q) == old(Translate(phys, root, q))
      ensures ok && Present(flags) ==>
        Translate(phys, root, PathOf(virt)) == LeafTranslation(Pack(f, NormalizeLeafFlags(false, flags)))
      ensures ok && !Present(flags) ==> Translate(phys, root, PathOf(virt)) == Fault
      ensures !ok ==> free == {} && PathOf(virt)[..3] !in s'.tables
      ensures OnlyChanged(old(phys), phys, TableFrames(s) + old(free))
      ensures free <= old(free) && TableFrames(s') == TableFrames(s) + (old(free) - free) && Along(s, s', PathOf(virt))
      ensures UpperKept(old(phys), phys, root)
    {
      hide Rep, User, PathOf, OnlyChanged, TableFrames, UserUpTo, NormalizeLeafFlags, Translate, Along, UpperKept;
      ghost var phys0 := phys;
      LowerLeafFlags(flags);
      PathPrefixes(virt);
      ok, s' := MapLeaf(root, virt, f, NormalizeLeafFlags(IsHigherHalf(virt), flags), flags, s);
      FlatMaps(phys0, phys, s, s', root);
    }

    method Unmap(root: FrameNo, virt: nat, ghost s: Space) returns (ok: bool, ghost s': Space)
      requires Valid() && Holds(phys, free, s) && root == s.tables[[]] && virt < LOWER_END
      modifies this
      ensures Valid() && Holds(phys, free, s') && s'.tables[[]] == root && free == old(free)
      ensures s'.leaves == s.leaves - {PathOf(virt)} && s'.tables == s.tables
      ensures ok <==> PathOf(virt)[..3] in s.tables
      ensures Translate(phys, root, PathOf(virt)) == Fault
      ensures forall q :: |q| == 4 && LowerPath(q) && q != PathOf(virt) ==>
        Translate(phys, root, q) == old(Translate(phys, root, q))
      ensures UpperKept(old(phys), phys, root)
    {
      hide Rep, User, PathOf, OnlyChanged, TableFrames, UserUpTo, Translate, UpperKept;
      ghost var phys0, free0 := phys, free;
      PathPrefixes(virt);
      RootShown(phys, s);
      ok, s' := WalkToPt(root, virt, Flags(0, 0), false, s);
      if ok {
        ghost var phys1, s1, p := phys, s', PathOf(virt)[..3];
        Write(L1, PathOf(virt)[3], ZERO);
        s' := WithLeaf(s1, PathOf(virt), ZERO);
        ZeroNotPresent();
        SetLeaf(phys1, phys, s1, s', p, PathOf(virt)[3], ZERO);
        UpperSlot(phys1, phys, s1, p, PathOf(virt)[3], ZERO);
        UpperTrans(phys0, phys1, phys, root);
        WithLeafTables(s1, PathOf(virt), ZERO);
      } else {
        MissingPage(phys, s', PathOf(virt));
      }
      FlatMaps(phys0, phys, s, s', root);
    }
  }

  lemma WithLeafTables(s: Space, q: Path, e: Word)
    ensures TableFrames(WithLeaf(s, q, e)) == TableFrames(s)
  {
  }

  lemma ChangedOne(phys: Phys, f: FrameNo, page: Page, changed: set<FrameNo>)
    requires f in phys && f in changed
    ensures OnlyChanged(phys, phys[f := page], changed)
  {
  }

  lemma GrownRoot(s: Space, free: set<FrameNo>, s': Space, free': set<FrameNo>)
    requires Grows(s, free, s', free') && [] in s.tables
    ensures [] in s'.tables && s'.tables[[]] == s.tables[[]]
  {
  }

  lemma MissingPage(phys: Phys, s: Space, q: Path)
    requires Rep(phys, s) && |q| == 4 && q[..3] !in s.tables
    ensures q !in s.leaves
  {
    if q in s.leaves { LeafTables(s, q, 3); }
  }

  /** Both translations, before and after, are the flat maps of the two spaces. */
  lemma FlatMaps(phys: Phys, phys': Phys, s: Space, s': Space, root: FrameNo)
    requires Rep(phys, s) && Rep(phys', s') && s.tables[[]] == root && s'.tables[[]] == root
    ensures forall q :: |q| == 4 && LowerPath(q) ==>
      Translate(phys, root, q) == if q in s.leaves then LeafTranslation(s.leaves[q]) else Fault
    ensures forall q :: |q| == 4 && LowerPath(q) ==>
      Translate(phys', root, q) == if q in s'.leaves then LeafTranslation(s'.leaves[q]) else Fault
  {
    forall q | |q| == 4 && LowerPath(q)
      ensures Translate(phys, root, q) == if q in s.leaves then LeafTranslation(s.leaves[q]) else Fault
      ensures Translate(phys', root, q) == if q in s'.leaves then LeafTranslation(s'.leaves[q]) else Fault
    {
      HardwareSeesFlatMap(phys, s, q);
      HardwareSeesFlatMap(phys', s', q);
    }
  }

  lemma PathPrefixes(virt: nat)
    requires virt < LOWER_END
    ensures var q := PathOf(virt);
      && q[0] < KERNEL_PML4_FIRST && LowerPath(q) && q[..0] == []
      && [] + [q[0]] == q[..1] && q[..1] + [q[1]] == q[..2] && q[..2] + [q[2]] == q[..3] && q[..3] + [q[3]] == q
  {
    PathRoundTrip(virt);
  }

  lemma RootShown(phys: Phys, s: Space)
    requires Rep(phys, s)
    ensures [] in s.tables && s.tables[[]] in phys
  {
  }

  lemma ChangedNothing(phys: Phys, changed: set<FrameNo>)
    ensures OnlyChanged(phys, phys, changed)
  {
  }

  /** If a table on the way is missing, so is the page table. */
  lemma {:induction false} MissingTable(phys: Phys, s: Space, q: Path, k: nat)
    requires Rep(phys, s) && |q| == 4 && 0 < k <= 3
    ensures q[..k] !in s.tables ==> q[..3] !in s.tables
    decreases 3 - k
  {
    if k < 3 {
      assert q[..k + 1] == q[..k] + [q[k]];
      if q[..k] !in s.tables { Childless(s, q[..k], q[k]); }
      MissingTable(phys, s, q, k + 1);
    }
  }

  function IsHigherHalf(virt: nat): bool { PathOf(virt)[0] >= KERNEL_PML4_FIRST }

  lemma GrowsNothing(s: Space, free: set<FrameNo>)
    ensures Grows(s, free, s, free)
  {
  }

  lemma RewriteSlot(phys: Phys, phys': Phys, t: FrameNo, i: nat, a: Word, b: Word)
    requires t in phys && i < ENTRIES && phys' == phys[t := phys[t][i := a]][t := phys[t][i := a][i := b]]
    ensures phys' == phys[t := phys[t][i := b]]
  {
    assert phys[t][i := a][i := b] == phys[t][i := b];
  }

  lemma Touched(phys: Phys, phys': Phys, s: Space, p: Path, i: nat, flags: Flags, q: Path, e: Word)
    requires Rep(phys, s) && p in s.tables && |p| < 3 && LowerIndex(|p|, i) && p + [i] in s.tables
    requires e == SetUserAccess(ClearNx(EntryAt(phys, s, p, i), flags), false, flags)
    requires phys' == phys[s.tables[p] := phys[s.tables[p]][i := e]] && |q| == 4 && q[..|p|] == p && q[|p|] == i
    ensures Rep(phys', s) && e.frame == s.tables[p + [i]] && e.frame in phys'
    ensures User(flags) && UserUpTo(phys, s, q, |p|) ==> UserUpTo(phys', s, q, |p| + 1)
  {
    hide UserUpTo, User, Passes, ClearNx, SetUserAccess;
    SlotAt(phys, s, p, i);
    TouchedTableEntry(EntryAt(phys, s, p, i), flags);
    WidenSlot(phys, phys', s, p, i, e);
    if User(flags) && UserUpTo(phys, s, q, |p|) {
      WidenUsers(phys, phys', s, p, i, e, q, |p|);
      UserStep(phys', s, q, |p|);
    }
  }

  lemma NewChildUsers(phys: Phys, phys': Phys, s: Space, s': Space, p: Path, i: nat, e: Word, f: FrameNo, q: Path)
    requires Rep(phys, s) && p in s.tables && i < ENTRIES && p + [i] !in s.tables
    requires f !in TableFrames(s) && s' == WithTable(s, p, i, f)
    requires phys' == phys[s.tables[p] := phys[s.tables[p]][i := e]][f := ZeroPage()]
    ensures UserUpTo(phys, s, q, |p|) ==> UserUpTo(phys', s', q, |p|)
    ensures User(EntryFlags(e)) ==> UserAt(phys', s', p, i)
  {
    AddTableEntries(phys, phys', s, s', p, i, e, f);
    if UserUpTo(phys, s, q, |p|) { AddTableUpTo(phys, phys', s, s', p, i, f, q); }
  }

  /** What the walker finds in slot i of an upper-level table. */
  lemma SlotAt(phys: Phys, s: Space, p: Path, i: nat)
    requires Rep(phys, s) && p in s.tables && |p| < 3 && LowerIndex(|p|, i)
    ensures IsPresent(EntryAt(phys, s, p, i)) <==> p + [i] in s.tables
    ensures p + [i] in s.tables ==> Passes(EntryAt(phys, s, p, i)) && EntryAt(phys, s, p, i).frame == s.tables[p + [i]]
    ensures p + [i] in s.tables ==> s.tables[p + [i]] in phys
  {
    assert TableSlot(phys, s, p, i);
  }

  lemma IndexOf(virt: nat, p: Path, i: nat)
    requires virt < LOWER_END && |p| < 4 && p + [i] == PathOf(virt)[..|p| + 1]
    ensures i == PathOf(virt)[|p|] && LowerIndex(|p|, i) && p == PathOf(virt)[..|p|]
    ensures PathOf(virt)[0] < KERNEL_PML4_FIRST
  {
    PathRoundTrip(virt);
    assert (p + [i])[|p|] == i && (p + [i])[..|p|] == p;
  }
}
