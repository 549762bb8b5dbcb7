/** Whole runs of the initrd filesystem. */
module InitrdRun {
  import opened Initrd

  datatype Op =
    | Make(dir: int, name: string, kind: Kind, inode: int, keep: bool)
    | MakeLink(dir: int, name: string, node: int, inode: int)
    | Unlink(dir: int, name: string, rmdir: bool)
    | Hold(node: int)
    | Let(node: int)

  /** Nodes exist, a new inode has a new address, and lookups hand out inodes that are no aliases. */
  predicate Allowed(nodes: map<int, Inode>, op: Op) {
    match op
    case Make(d, _, _, c, _) => d in nodes && c !in nodes && c != 0
    case MakeLink(d, _, t, c) => d in nodes && c !in nodes && c != 0 && t in nodes && nodes[t].target == 0
    case Unlink(d, _, _) => d in nodes
    case Hold(x) => x in nodes
    case Let(x) => x in nodes && nodes[x].target == 0
  }

  /** Something is made in a directory that was removed. */
  predicate Strays(nodes: map<int, Inode>, root: int, op: Op) {
    && op.Make? && op.dir in nodes && nodes[op.dir].kind == Dir && ValidName(op.name)
    && op.dir != root && nodes[op.dir].parent == 0
  }

  // What the calls do.

  /** The place of the first entry of that name in directory d, and the number of entries if there is none. */
  ghost function Place(s: State, d: int, name: string): (k: nat)
    requires Sound(s) && d in s.nodes
    ensures d in s.kids && FirstNamed(s, d, name, k)
  {
    Named(s, d, name, 0);
    var k :| FirstNamed(s, d, name, k);
    k
  }

  lemma {:induction false} Named(s: State, d: int, name: string, i: nat)
    requires Sound(s) && d in s.nodes
    requires d in s.kids && i <= |s.kids[d]|
    requires forall j :: 0 <= j < i ==> s.kids[d][j] in s.nodes && s.nodes[s.kids[d][j]].name != name
    ensures exists k :: FirstNamed(s, d, name, k)
    decreases |s.kids[d]| - i
  {
    hide NodeOk, CountOk, Chain;
    assert DirOk(s, d);
    if i < |s.kids[d]| {
      var c := s.kids[d][i];
      assert c in s.kids[d] && c in s.nodes;
      if s.nodes[c].name != name { Named(s, d, name, i + 1); } else { assert FirstNamed(s, d, name, i); }
    } else {
      assert FirstNamed(s, d, name, i);
    }
  }

  lemma PlaceIs(s: State, d: int, name: string, k: nat)
    requires Sound(s) && d in s.nodes && d in s.kids && FirstNamed(s, d, name, k)
    ensures k == Place(s, d, name)
  {
    hide Sound;
  }

  /** The state after a call; a call that is not allowed is not made. */
  ghost function Next(s: State, op: Op): State
    requires Sound(s)
  {
    if !Allowed(s.nodes, op) then s
    else
      Known(s, op);
      match op
      case Make(d, name, kind, c, keep) =>
        if s.nodes[d].kind == Dir && ValidName(name)
        then Join(s, d, c, Inode(kind, name, d, 0, 0, 1, if keep then 1 else 0))
        else s
      case MakeLink(d, name, t, c) =>
        if LinkVerdict(s, d, name, t) == Ok then JoinAlias(s, d, c, Inode(File, name, d, t, 0, 1, 0)) else s
      case Unlink(d, name, rmdir) =>
        if s.nodes[d].kind == Dir && ValidName(name) && Verdict(s, d, Place(s, d, name), rmdir) == Ok
        then Taken(s, d, Place(s, d, name), rmdir); Removed(s, d, Place(s, d, name))
        else s
      case Hold(x) => Raise(s, x)
      case Let(x) => Drop(s, x)
  }

  lemma Known(s: State, op: Op)
    requires Sound(s) && Allowed(s.nodes, op)
    ensures op.Make? ==> op.dir in s.first && op.dir in s.kids
    ensures op.MakeLink? ==> op.dir in s.first && op.dir in s.kids
    ensures op.MakeLink? && LinkVerdict(s, op.dir, op.name, op.node) == Ok ==> op.node != op.dir
    ensures op.Unlink? ==> op.dir in s.kids
  {
  }

  lemma Taken(s: State, d: int, k: nat, rmdir: bool)
    requires Sound(s) && d in s.nodes && d in s.kids && Verdict(s, d, k, rmdir) == Ok
    ensures k < |s.kids[d]| && Removable(s, d, k)
  {
    hide Sound, Removable;
    EntryFacts(s, d, k);
  }

  // What they free.

  /** An inode disappears only with its last link or its last reference, when it has none of the
      other, and an alias with its entry; nothing names it then. */
  ghost predicate FreedAt(s: State, s': State, x: int) {
    x in s.nodes && x !in s'.nodes ==>
      && (s.nodes[x].target == 0 ==> s.nodes[x].links + s.nodes[x].refs == 1)
      && (forall y :: y in s'.nodes ==> s'.nodes[y].target != x && s'.nodes[y].parent != x)
      && (forall d :: d in s'.kids ==> x !in s'.kids[d])
  }

  ghost predicate FreesRightly(s: State, s': State) {
    forall x :: FreedAt(s, s', x)
  }

  lemma FreesNothing(s: State, s': State)
    requires s.nodes.Keys <= s'.nodes.Keys
    ensures FreesRightly(s, s')
  {
  }

  /** In a sound state nothing names what is not there. */
  lemma NotNamed(s: State, x: int)
    requires Sound(s) && x !in s.nodes && x != 0
    ensures forall y :: y in s.nodes ==> s.nodes[y].target != x && s.nodes[y].parent != x
    ensures forall d :: d in s.kids ==> x !in s.kids[d]
  {
    hide CountOk, Chain;
    forall y | y in s.nodes ensures s.nodes[y].target != x && s.nodes[y].parent != x { assert NodeOk(s, y); }
    forall d | d in s.kids ensures x !in s.kids[d] { assert DirOk(s, d); }
  }

  lemma FreesLast(s: State, s': State)
    requires Sound(s) && Sound(s')
    requires forall x :: x in s.nodes && s.nodes[x].target == 0 && x !in s'.nodes ==>
      s.nodes[x].links + s.nodes[x].refs == 1
    ensures FreesRightly(s, s')
  {
    hide DirOk, NodeOk, CountOk;
    forall x ensures FreedAt(s, s', x) {
      if x in s.nodes && x !in s'.nodes { NotNamed(s', x); }
    }
  }

  lemma RemovalFrees(s: State, d: int, k: nat)
    requires Sound(s) && d in s.kids && k < |s.kids[d]| && Removable(s, d, k) && Sound(Removed(s, d, k))
    ensures FreesRightly(s, Removed(s, d, k))
  {
    hide Sound, Removed, FreesRightly;
    RemovedFacts(s, d, k);
    FreesLast(s, Removed(s, d, k));
  }

  /** A call does to the ramdisk what `Next` says, keeps the invariant if and only if it does not make
      something in a removed directory, and frees rightly. */
  method Perform(r: Ramdisk, op: Op)
    requires Sound(r.Abs()) && Allowed(r.nodes, op)
    modifies r
    ensures r.Abs() == Next(old(r.Abs()), op)
    ensures Sound(r.Abs()) <==> !old(Strays(r.nodes, r.root, op))
    ensures FreesRightly(old(r.Abs()), r.Abs())
  {
    hide Sound, FreesRightly, Removed, Drop, Join, JoinAlias, LinkVerdict, Verdict, FirstNamed;
    ghost var s := r.Abs();
    Known(s, op);
    match op
    case Make(d, name, kind, c, keep) =>
      var _ := r.Create(d, name, kind, c, keep);
      MakeFrees(s, r.Abs(), op);
    case MakeLink(d, name, t, c) =>
      var _ := r.Link(d, name, t, c);
      MakeFrees(s, r.Abs(), op);
    case Unlink(d, name, rmdir) =>
      ghost var k;
      var status;
      FreesNothing(s, s);
      status, k := r.Remove(d, name, rmdir);
      if s.nodes[d].kind == Dir && ValidName(name) { PlaceIs(s, d, name, k); }
      if status == Ok { RemovalFrees(s, d, k); }
    case Hold(x) =>
      r.Borrow(x);
      FreesNothing(s, r.Abs());
    case Let(x) =>
      r.Release(x);
      DropFrees(s, x);
  }

  lemma MakeFrees(s: State, s': State, op: Op)
    requires Sound(s) && s' == Next(s, op) && (op.Make? || op.MakeLink?)
    ensures FreesRightly(s, s')
  {
    FreesNothing(s, s');
  }

  lemma DropFrees(s: State, x: int)
    requires Sound(s) && x in s.nodes && Sound(Drop(s, x))
    ensures FreesRightly(s, Drop(s, x))
  {
    hide Sound;
    FreesLast(s, Drop(s, x));
  }

  /** The k-th of the states follows from the one before it by the k-th call, which frees rightly. */
  ghost predicate Follows(states: seq<State>, ops: seq<Op>, k: nat)
    requires k + 1 < |states| && k < |ops|
  {
    Sound(states[k]) && states[k + 1] == Next(states[k], ops[k]) && FreesRightly(states[k], states[k + 1])
  }

  /** Every run of calls on an empty filesystem, up to the first that makes something in a removed
      directory: each state but the last is sound, and so is the last unless it follows such a call. */
  method Run(root: int, ops: seq<Op>) returns (r: Ramdisk, ghost states: seq<State>)
    requires root != 0
    ensures 0 < |states| <= |ops| + 1 && states[0] == Empty(root) && states[|states| - 1] == r.Abs()
    ensures forall k :: 0 <= k < |states| - 1 ==> Follows(states, ops, k)
    ensures Sound(r.Abs()) ==> |states| == |ops| + 1
    ensures !Sound(r.Abs()) ==>
      && |states| > 1 && Allowed(states[|states| - 2].nodes, ops[|states| - 2])
      && Strays(states[|states| - 2].nodes, root, ops[|states| - 2])
  {
    hide Sound, Next, FreesRightly;
    r := new Ramdisk(root);
    states := [r.Abs()];
    var done := 0;
    while done < |ops|
      invariant fresh(r) && r.root == root && done <= |ops| && Sound(r.Abs())
      invariant |states| == done + 1 && states[0] == Empty(root) && states[done] == r.Abs()
      invariant forall k :: 0 <= k < done ==> Follows(states, ops, k)
    {
      var op := ops[done];
      ghost var states0 := states;
      FreesNothing(r.Abs(), r.Abs());
      Skipped(r.Abs(), op);
      var allowed := Allowed(r.nodes, op);
      var stray := allowed && Strays(r.nodes, root, op);
      if allowed { Perform(r, op); }
      done := done + 1;
      states := states + [r.Abs()];
      forall k | 0 <= k < done ensures Follows(states, ops, k) {
        assert k < done - 1 ==> Follows(states0, ops, k);
      }
      if stray { return; }
    }
  }

  lemma Skipped(s: State, op: Op)
    requires Sound(s)
    ensures !Allowed(s.nodes, op) ==> Next(s, op) == s
  {
  }

  // Link counts.

  /** Some directory lists c. */
  ghost predicate InDirectory(s: State, c: int) {
    exists d :: d in s.nodes && d in s.kids && c in s.kids[d]
  }

  /** The link count is the number of directory entries that lead to the inode, by name or as an
      alias, and an inode without links is kept by a reference. */
  lemma LinksCounted(s: State, x: int)
    requires Sound(s) && x in s.nodes && x != s.root && s.nodes[x].target == 0
    ensures s.nodes[x].links == |set c | c in s.nodes && InDirectory(s, c) && Resolves(s.nodes[c], c) == x|
    ensures s.nodes[x].links > 0 || s.nodes[x].refs > 0
  {
    assert CountOk(s.nodes, s.root, x);
    forall c | c in s.nodes ensures InDirectory(s, c) <==> s.nodes[c].parent != 0 {
      InParent(s, c);
    }
    assert Entries(s.nodes, x) == set c | c in s.nodes && InDirectory(s, c) && Resolves(s.nodes[c], c) == x;
  }

  lemma InParent(s: State, c: int)
    requires Sound(s) && c in s.nodes
    ensures InDirectory(s, c) <==> s.nodes[c].parent != 0
  {
    hide CountOk, Chain;
    assert NodeOk(s, c);
    if d :| d in s.nodes && d in s.kids && c in s.kids[d] {
      assert DirOk(s, d);
    }
  }

  /** Every link count is the number of entries that lead to the inode. */
  ghost predicate Counted(s: State) {
    forall x :: x in s.nodes && x != s.root && s.nodes[x].target == 0 ==> CountedAt(s, x)
  }

  ghost predicate CountedAt(s: State, x: int)
    requires x in s.nodes
  {
    s.nodes[x].links == |set c | c in s.nodes && InDirectory(s, c) && Resolves(s.nodes[c], c) == x|
  }

  lemma SoundCounted(s: State)
    requires Sound(s)
    ensures Counted(s)
  {
    hide Sound;
    forall x | x in s.nodes && x != s.root && s.nodes[x].target == 0 ensures CountedAt(s, x) { LinksCounted(s, x); }
  }

  /** d is released m times. */
  ghost function Drops(s: State, d: int, m: nat): State {
    if m == 0 then s
    else
      var s' := Drops(s, d, m - 1);
      if d in s'.nodes then Drop(s', d) else s'
  }

  /** A directory in the tree, or the root, has a link. */
  lemma OpenLinked(s: State, d: int)
    requires Sound(s) && Open(s, d)
    ensures s.nodes[d].target == 0 && s.nodes[d].links > 0
  {
    hide Chain, Entries;
    assert NodeOk(s, d) && CountOk(s.nodes, s.root, d);
    if d != s.root {
      InEntries(s.nodes, d, d);
    }
  }

  lemma {:induction false} DropsSound(s: State, d: int, m: nat)
    requires Sound(s) && Open(s, d)
    ensures Sound(Drops(s, d, m)) && Open(Drops(s, d, m), d)
  {
    hide Sound;
    if m > 0 {
      DropsSound(s, d, m - 1);
      var s' := Drops(s, d, m - 1);
      OpenLinked(s', d);
      DropSound(s', d, Drop(s', d));
    }
  }

  ghost function Fewer(s: State, d: int, m: nat): State
    requires d in s.nodes && m <= s.nodes[d].refs
  {
    s.(nodes := s.nodes[d := s.nodes[d].(refs := s.nodes[d].refs - m)])
  }

  /** A removed directory loses one reference after the other, and is freed with the last. */
  lemma {:induction false} DropsRefs(s: State, d: int, m: nat)
    requires d in s.nodes && s.nodes[d].links == 0 && m <= s.nodes[d].refs && s.nodes[d].refs > 0
    ensures m < s.nodes[d].refs ==> Drops(s, d, m) == Fewer(s, d, m)
    ensures m == s.nodes[d].refs ==> Drops(s, d, m) == Erase(s, d)
  {
    if m == 0 {
      assert s.nodes[d := s.nodes[d]] == s.nodes;
    } else {
      DropsRefs(s, d, m - 1);
      var s' := Drops(s, d, m - 1);
      assert s'.nodes - {d} == s.nodes - {d};
      assert s'.nodes[d := s.nodes[d].(refs := s.nodes[d].refs - m)] == Fewer(s, d, m).nodes;
    }
  }

  lemma RemovedDir(s: State, d: int)
    requires Sound(s) && d in s.nodes && s.nodes[d].kind == Dir && !Open(s, d)
    ensures s.nodes[d].target == 0 && s.nodes[d].links == 0 && s.nodes[d].refs > 0
  {
    hide Chain, DirOk;
    assert NodeOk(s, d) && CountOk(s.nodes, s.root, d);
    assert Entries(s.nodes, d) == {} by {
      forall x | x in s.nodes ensures !IsEntry(s.nodes[x], x, d) { assert NodeOk(s, x); }
    }
  }

  /** What becomes of an entry made in a removed directory: when the last reference to the directory goes,
      it stays behind with a link that no directory holds and a parent that is gone. */
  lemma Stranded(s: State, d: int, c: int, n: Inode)
    requires Sound(s) && d in s.nodes && s.nodes[d].kind == Dir && !Open(s, d) && c !in s.nodes && c != 0
    requires d in s.first && d in s.kids && n.parent == d && n.target == 0 && n.links == 1
    ensures var s1 := Join(s, d, c, n); d in s1.nodes && s1.nodes[d].target == 0 && s1.nodes[d].refs == s.nodes[d].refs
    ensures var s2 := Drops(Join(s, d, c, n), d, s.nodes[d].refs);
      && c in s2.nodes && s2.nodes[c].links == 1 && s2.nodes[c].target == 0 && s2.nodes[c].parent == d
      && d !in s2.nodes && s2.root == s.root && (forall e :: e in s2.kids ==> c !in s2.kids[e])
      && forall y :: y in s2.nodes ==> s2.nodes[y].target != c
  {
    hide Sound;
    RemovedDir(s, d);
    NotNamed(s, c);
    DropsRefs(Join(s, d, c, n), d, s.nodes[d].refs);
  }

  /** However often the directory is released after an entry was made in it, the link counts stay the
      numbers of entries: if and only if the directory was in the tree. */
  lemma CountsExact(s: State, d: int, c: int, n: Inode)
    requires Sound(s) && d in s.nodes && s.nodes[d].kind == Dir && c !in s.nodes && c != 0
    requires d in s.first && d in s.kids && n.parent == d && n.len == 0 && n.target == 0 && n.links == 1
    ensures (forall m: nat :: Counted(Drops(Join(s, d, c, n), d, m))) <==> Open(s, d)
  {
    hide Sound, Counted;
    var s1 := Join(s, d, c, n);
    if Open(s, d) {
      JoinSound(s, d, c, n, s1);
      assert Open(s1, d);
      forall m: nat ensures Counted(Drops(s1, d, m)) {
        DropsSound(s1, d, m);
        SoundCounted(Drops(s1, d, m));
      }
    } else {
      Stranded(s, d, c, n);
      RootIn(s);
      Uncounted(Drops(s1, d, s.nodes[d].refs), c);
    }
  }

  lemma RootIn(s: State)
    requires Sound(s)
    ensures s.root in s.nodes
  {
  }

  lemma Uncounted(s: State, c: int)
    requires c in s.nodes && c != s.root && s.nodes[c].links == 1 && s.nodes[c].target == 0
    requires forall e :: e in s.kids ==> c !in s.kids[e]
    requires forall y :: y in s.nodes ==> s.nodes[y].target != c
    ensures !Counted(s)
  {
    assert (set y | y in s.nodes && InDirectory(s, y) && Resolves(s.nodes[y], y) == c) == {};
    assert !CountedAt(s, c);
  }

  // An instance.

  lemma MadeAlone(s0: State, s: State)
    requires s0.root == 1 && s0.nodes.Keys == {1} && 1 in s0.first && 1 in s0.kids && s0.kids[1] == []
    requires s0.nodes[1].kind == Dir
    requires s == Join(s0, 1, 2, Inode(Dir, "a", 1, 0, 0, 1, 1))
    ensures s.root == 1 && s.nodes.Keys == {1, 2} && 1 in s.kids && 2 in s.kids && 2 in s.first
    ensures s.kids[1] == [2] && s.kids[2] == [] && s.first[2] == 0
    ensures s.nodes[1].kind == Dir && s.nodes[2] == Inode(Dir, "a", 1, 0, 0, 1, 1)
  {
  }

  /** The only directory of a filesystem is removed while it is held. */
  lemma RemovedAlone(s: State, k: nat, gone: Status, s1: State)
    requires s.root == 1 && s.nodes.Keys == {1, 2} && 1 in s.kids && 2 in s.kids && 2 in s.first
    requires s.kids[1] == [2] && s.kids[2] == [] && s.first[2] == 0
    requires s.nodes[1].kind == Dir && s.nodes[2] == Inode(Dir, "a", 1, 0, 0, 1, 1)
    requires FirstNamed(s, 1, "a", k) && gone == Verdict(s, 1, k, true)
    requires gone == Ok ==> k < |s.kids[1]| && Removable(s, 1, k) && s1 == Removed(s, 1, k)
    ensures gone == Ok && s1.nodes.Keys == {1, 2} && s1.nodes[2] == Inode(Dir, "a", 0, 0, 0, 0, 1) && s1.root == 1
  {
    assert s.kids[1][0] == 2 && k == 0;
  }

  /** An instance: a directory is made and entered, removed, a file is made in it, and it is left. */
  method Lost() returns (r: Ramdisk)
    ensures 3 in r.nodes && r.nodes[3].links == 1 && r.nodes[3].parent == 2 && 2 !in r.nodes
    ensures forall e :: e in r.kids ==> 3 !in r.kids[e]
  {
    hide Sound, Join, Removed, Drop, Verdict, Removable, FirstNamed;
    r := new Ramdisk(1);
    ghost var s0 := r.Abs();
    RootAlone(s0);
    var made := r.Create(1, "a", Dir, 2, true);
    ghost var s := r.Abs();
    MadeAlone(s0, s);
    var gone;
    ghost var k;
    gone, k := r.Remove(1, "a", true);
    ghost var s1 := r.Abs();
    RemovedAlone(s, k, gone, s1);
    var more := r.Create(2, "x", File, 3, false);
    Stranded(s1, 2, 3, Inode(File, "x", 2, 0, 0, 1, 0));
    assert Drops(r.Abs(), 2, 1) == Drop(r.Abs(), 2);
    r.Release(2);
  }

  lemma RootAlone(s: State)
    requires Sound(s) && s.nodes.Keys == {s.root}
    ensures s.nodes[s.root].kind == Dir && s.root in s.first && s.root in s.kids && Open(s, s.root)
  {
  }
}
