/** What the calls do to names: a directory is the list of its names and the inodes that they lead to. */
module InitrdNames {
  import opened Seqs
  import opened Initrd
  import opened InitrdRun

  datatype Entry = Entry(name: string, node: int)

  ghost function Shown(nodes: map<int, Inode>, c: int): Entry {
    if c in nodes then Entry(nodes[c].name, Resolves(nodes[c], c)) else Entry("", 0)
  }

  ghost function ShownAll(nodes: map<int, Inode>, l: seq<int>): seq<Entry> {
    seq(|l|, i requires 0 <= i < |l| => Shown(nodes, l[i]))
  }

  /** The entries of d, in the order of its list. */
  ghost function Listing(s: State, d: int): seq<Entry> {
    if d in s.kids then ShownAll(s.nodes, s.kids[d]) else []
  }

  /** The inode of the first entry of that name, 0 if there is none. */
  ghost function Look(l: seq<Entry>, name: string): int {
    if l == [] then 0 else if l[0].name == name then l[0].node else Look(l[1..], name)
  }

  /** The first entry of that name is at k. */
  ghost predicate FirstAt(l: seq<Entry>, name: string, k: nat) {
    k < |l| && l[k].name == name && forall j :: 0 <= j < k ==> l[j].name != name
  }

  lemma {:induction false} LookFirst(l: seq<Entry>, name: string, k: nat)
    requires k <= |l| && (forall j :: 0 <= j < k ==> l[j].name != name) && (k < |l| ==> l[k].name == name)
    ensures Look(l, name) == if k < |l| then l[k].node else 0
  {
    if k > 0 {
      assert l[0].name != name;
      forall j | 0 <= j < k - 1 ensures l[1..][j].name != name { assert l[1..][j] == l[j + 1]; }
      LookFirst(l[1..], name, k - 1);
    }
  }

  /** An entry leads to an inode. */
  lemma ListingAt(s: State, d: int)
    requires Sound(s) && d in s.nodes
    ensures d in s.kids && |Listing(s, d)| == |s.kids[d]|
    ensures forall k :: 0 <= k < |s.kids[d]| ==>
      s.kids[d][k] in s.nodes && Listing(s, d)[k] == Shown(s.nodes, s.kids[d][k]) && Listing(s, d)[k].node in s.nodes
  {
    hide CountOk, Chain;
    forall k | 0 <= k < |s.kids[d]| ensures s.kids[d][k] in s.nodes && Listing(s, d)[k].node in s.nodes {
      assert DirOk(s, d) && s.kids[d][k] in s.kids[d];
      assert NodeOk(s, s.kids[d][k]);
    }
  }

  /** find_child finds what the list of names says. */
  lemma PlaceLook(s: State, d: int, name: string, k: nat)
    requires Sound(s) && d in s.nodes && d in s.kids && FirstNamed(s, d, name, k)
    ensures var l := Listing(s, d);
      && Look(l, name) == (if k < |l| then l[k].node else 0) && (k < |l| <==> Look(l, name) != 0)
      && (k < |l| ==> FirstAt(l, name, k) && Look(l, name) in s.nodes) && k <= |l| == |s.kids[d]|
  {
    hide Sound;
    ListingAt(s, d);
    NonNull(s);
    var l := Listing(s, d);
    forall j | 0 <= j < |l| ensures l[j].name == s.nodes[s.kids[d][j]].name {}
    LookFirst(l, name, k);
  }

  // New names.

  /** A new name at the end of the list of d, and no other list touched. */
  ghost predicate Gains(s: State, s': State, d: int, e: Entry) {
    && Listing(s', d) == Listing(s, d) + [e] && s.nodes.Keys <= s'.nodes.Keys
    && forall x :: x in s.nodes && x != d ==> Listing(s', x) == Listing(s, x)
  }

  lemma SameShown(nodes: map<int, Inode>, nodes': map<int, Inode>, l: seq<int>)
    requires forall k :: 0 <= k < |l| ==> Shown(nodes', l[k]) == Shown(nodes, l[k])
    ensures ShownAll(nodes', l) == ShownAll(nodes, l)
  {
  }

  lemma JoinGains(s: State, d: int, c: int, n: Inode, s': State)
    requires Sound(s) && d in s.nodes && c !in s.nodes && d in s.first && d in s.kids
    requires s'.kids == s.kids[c := []][d := s.kids[d] + [c]]
    requires s'.nodes.Keys == s.nodes.Keys + {c} && s'.nodes[c] == n
    requires forall x :: x in s.nodes ==> s'.nodes[x].name == s.nodes[x].name && s'.nodes[x].target == s.nodes[x].target
    ensures Gains(s, s', d, Entry(n.name, Resolves(n, c))) && Listing(s', c) == []
  {
    hide Sound;
    forall x | x in s.nodes ensures x in s.kids && ShownAll(s'.nodes, s.kids[x]) == Listing(s, x) {
      ListingAt(s, x);
      SameShown(s.nodes, s'.nodes, s.kids[x]);
    }
    var l := s.kids[d];
    assert ShownAll(s'.nodes, l + [c]) == ShownAll(s'.nodes, l) + [Shown(s'.nodes, c)];
  }

  /** vfs_create and vfs_mkdir: in a directory and with a valid name the new inode is entered, once, and
      nothing else changes; otherwise nothing changes. */
  lemma MakeNames(s: State, op: Op)
    requires Sound(s) && op.Make? && Allowed(s.nodes, op)
    ensures var s', c := Next(s, op), op.inode;
      if s.nodes[op.dir].kind == Dir && ValidName(op.name) then
        && Gains(s, s', op.dir, Entry(op.name, c)) && Listing(s', c) == [] && c in s'.nodes
        && s'.nodes[c].kind == op.kind && s'.nodes[c].links == 1 && s'.nodes[c].refs == (if op.keep then 1 else 0)
        && (forall x :: x in s.nodes ==> s'.nodes[x] == s.nodes[x].(len := s'.nodes[x].len))
      else s' == s
  {
    hide Sound;
    Known(s, op);
    if s.nodes[op.dir].kind == Dir && ValidName(op.name) {
      JoinGains(s, op.dir, op.inode, Next(s, op).nodes[op.inode], Next(s, op));
    }
  }

  /** The root is k parents above x. */
  ghost predicate Below(nodes: map<int, Inode>, root: int, x: int, k: nat)
    decreases k
  {
    if k == 0 then x == root
    else x != root && x in nodes && nodes[x].parent != 0 && Below(nodes, root, nodes[x].parent, k - 1)
  }

  /** Somewhere above x, or at x, is a node without a parent that is not the root. */
  ghost predicate CutOff(nodes: map<int, Inode>, root: int, x: int, k: nat)
    decreases k
  {
    && x != root
    && if k == 0 then x !in nodes || nodes[x].parent == 0
       else x in nodes && nodes[x].parent != 0 && CutOff(nodes, root, nodes[x].parent, k - 1)
  }

  ghost predicate RootWithin(nodes: map<int, Inode>, root: int, x: int, depth: nat, k: nat) {
    k < depth && Below(nodes, root, x, k)
  }

  ghost predicate CutWithin(nodes: map<int, Inode>, root: int, x: int, depth: nat, k: nat) {
    k < depth && CutOff(nodes, root, x, k)
  }

  /** The climb finds the mount of a node exactly if the root is fewer than `depth` parents above it, and says
      that there is none exactly if it comes to a node that was removed within as many. */
  lemma {:induction false} OwnerExact(nodes: map<int, Inode>, root: int, x: int, depth: nat)
    ensures OwnerOf(nodes, root, x, depth) == Mounted <==> exists k: nat :: RootWithin(nodes, root, x, depth, k)
    ensures OwnerOf(nodes, root, x, depth) == Nobody <==> exists k: nat :: CutWithin(nodes, root, x, depth, k)
    decreases depth
  {
    if depth > 0 {
      if x == root {
        assert RootWithin(nodes, root, x, depth, 0);
      } else if x !in nodes || nodes[x].parent == 0 {
        assert CutWithin(nodes, root, x, depth, 0);
      } else {
        OwnerExact(nodes, root, nodes[x].parent, depth - 1);
        OneUp(nodes, root, x, nodes[x].parent, depth, depth - 1);
      }
    }
  }

  lemma OneUp(nodes: map<int, Inode>, root: int, x: int, p: int, depth: nat, less: nat)
    requires depth == less + 1 && x != root && x in nodes && p == nodes[x].parent && p != 0
    ensures (exists k: nat :: RootWithin(nodes, root, x, depth, k)) <==>
      exists k: nat :: RootWithin(nodes, root, p, less, k)
    ensures (exists k: nat :: CutWithin(nodes, root, x, depth, k)) <==>
      exists k: nat :: CutWithin(nodes, root, p, less, k)
  {
    if k: nat :| RootWithin(nodes, root, x, depth, k) { assert RootWithin(nodes, root, p, less, k - 1); }
    if k: nat :| RootWithin(nodes, root, p, less, k) { assert RootWithin(nodes, root, x, depth, k + 1); }
    if k: nat :| CutWithin(nodes, root, x, depth, k) { assert CutWithin(nodes, root, p, less, k - 1); }
    if k: nat :| CutWithin(nodes, root, p, less, k) { assert CutWithin(nodes, root, x, depth, k + 1); }
  }

  /** vfs_link: a second name for a file, in a directory that has none of that name, when the climbs from
      both give the same answer and come to no removed node.  A directory never gets a second name, and a
      name is never used twice. */
  lemma LinkNames(s: State, op: Op)
    requires Sound(s) && op.MakeLink? && Allowed(s.nodes, op)
    ensures var s', d, t := Next(s, op), op.dir, op.node;
      var md, mt := OwnerOf(s.nodes, s.root, d, MAX_DEPTH), OwnerOf(s.nodes, s.root, t, MAX_DEPTH);
      if s.nodes[d].kind == Dir && s.nodes[t].kind == File && ValidName(op.name) && Look(Listing(s, d), op.name) == 0 &&
        mt == md != Nobody
      then
        && Gains(s, s', d, Entry(op.name, t)) && s'.nodes[t].links == s.nodes[t].links + 1
        && (forall x :: x in s.nodes && x != t ==> s'.nodes[x] == s.nodes[x].(len := s'.nodes[x].len))
      else s' == s
  {
    hide Sound;
    Known(s, op);
    var d, t := op.dir, op.node;
    var k := Place(s, d, op.name);
    PlaceLook(s, d, op.name, k);
    NonNull(s);
    if Next(s, op) != s {
      var n := Inode(File, op.name, d, t, 0, 1, 0);
      PlaceLook(s, d, op.name, |s.kids[d]|);
      JoinGains(s, d, op.inode, n, Next(s, op));
    }
    if FirstNamed(s, d, op.name, |s.kids[d]|) { PlaceIs(s, d, op.name, |s.kids[d]|); }
  }

  /** A name that was not there leads to the new inode, and other names lead where they did. */
  lemma {:induction false} LookGains(l: seq<Entry>, e: Entry, name: string)
    requires forall k :: 0 <= k < |l| ==> l[k].node != 0
    ensures Look(l + [e], name) ==
      if Look(l, name) != 0 then Look(l, name) else if e.name == name then e.node else 0
  {
    if l == [] {
      assert (l + [e])[1..] == [];
    } else if l[0].name != name {
      assert (l + [e])[1..] == l[1..] + [e];
      LookGains(l[1..], e, name);
    }
  }

  // Names go.

  lemma RemovalSound(s: State, d: int, k: nat)
    requires Sound(s) && d in s.nodes && d in s.kids && k < |s.kids[d]| && Removable(s, d, k)
    ensures Sound(Removed(s, d, k))
  {
    hide Sound, Cut, Drop;
    var t := Resolves(s.nodes[s.kids[d][k]], s.kids[d][k]);
    RefSound(s, Raise(s, t), t, s.nodes[t].refs + 1);
    CutSound(s, d, k, Cut(s, d, k));
    DropSound(Cut(s, d, k), t, Removed(s, d, k));
  }

  /** What is left of x is as it was, but for its counts. */
  ghost predicate Rests(s: State, s': State, d: int, k: nat, x: int)
    requires d in s.kids && k < |s.kids[d]|
  {
    && x in s.nodes && x in s.kids && x in s'.kids && x in s'.nodes
    && s'.kids[x] == (if x == d then RemoveAt(s.kids[d], k) else s.kids[x])
    && (var n, n' := s.nodes[x], s'.nodes[x];
      n'.name == n.name && n'.target == n.target && n'.kind == n.kind && (x != s.kids[d][k] ==> n'.parent == n.parent))
  }

  lemma CutLists(s: State, d: int, k: nat, x: int)
    requires d in s.nodes && d in s.kids && k < |s.kids[d]| && Removable(s, d, k) && s.kids.Keys == s.nodes.Keys
    requires x in Cut(s, d, k).nodes
    ensures Rests(s, Cut(s, d, k), d, k, x)
  {
    hide RemoveAt, RemoveNext;
  }

  lemma CutHas(s: State, d: int, k: nat)
    requires d in s.kids && k < |s.kids[d]| && Removable(s, d, k)
    ensures Resolves(s.nodes[s.kids[d][k]], s.kids[d][k]) in Cut(s, d, k).nodes
    ensures Removed(s, d, k).nodes.Keys <= Cut(s, d, k).nodes.Keys
  {
    hide RemoveAt, RemoveNext;
  }

  lemma DropLists(s: State, s1: State, d: int, k: nat, t: int, x: int)
    requires d in s.kids && k < |s.kids[d]| && t in s1.nodes && x in Drop(s1, t).nodes && Rests(s, s1, d, k, x)
    ensures Rests(s, Drop(s1, t), d, k, x)
  {
    hide RemoveAt;
  }

  /** The lists after a removal. */
  lemma RemovedLists(s: State, d: int, k: nat, x: int)
    requires Sound(s) && d in s.nodes && d in s.kids && k < |s.kids[d]| && Removable(s, d, k)
    requires x in Removed(s, d, k).nodes
    ensures Rests(s, Removed(s, d, k), d, k, x)
  {
    hide DirOk, NodeOk, CountOk, Cut, Rests;
    CutHas(s, d, k);
    var t := Resolves(s.nodes[s.kids[d][k]], s.kids[d][k]);
    CutLists(s, d, k, x);
    DropLists(s, Cut(s, d, k), d, k, t, x);
  }

  /** d loses its k-th name, and no other list is touched. */
  ghost predicate Loses(s: State, s': State, d: int, k: nat) {
    && k < |Listing(s, d)| && d in s'.nodes && s'.nodes.Keys <= s.nodes.Keys
    && Listing(s', d) == RemoveAt(Listing(s, d), k)
    && forall x :: x in s'.nodes && x != d ==> Listing(s', x) == Listing(s, x)
  }

  lemma ShownRemoved(nodes: map<int, Inode>, l: seq<int>, k: nat)
    requires k < |l|
    ensures ShownAll(nodes, RemoveAt(l, k)) == RemoveAt(ShownAll(nodes, l), k)
  {
  }

  lemma RemovalLoses(s: State, d: int, k: nat, s': State)
    requires Sound(s) && d in s.nodes && d in s.kids && k < |s.kids[d]| && Removable(s, d, k)
    requires s' == Removed(s, d, k) && Sound(s')
    ensures Loses(s, s', d, k)
  {
    hide Sound, Removed, RemoveAt, Removable;
    ListingAt(s, d);
    RemovedFacts(s, d, k);
    forall x | x in s'.nodes ensures Listing(s', x) == if x == d then RemoveAt(Listing(s, d), k) else Listing(s, x) {
      RemovedLists(s, d, k, x);
      ListingAt(s', x);
      var l := s'.kids[x];
      forall j | 0 <= j < |l| ensures Shown(s'.nodes, l[j]) == Shown(s.nodes, l[j]) { RemovedLists(s, d, k, l[j]); }
      SameShown(s.nodes, s'.nodes, l);
      ShownRemoved(s.nodes, s.kids[d], k);
    }
    StaysIn(s, d, k);
  }

  lemma StaysIn(s: State, d: int, k: nat)
    requires Sound(s) && d in s.nodes && d in s.kids && k < |s.kids[d]| && Removable(s, d, k)
    ensures d in Removed(s, d, k).nodes
  {
    hide Sound, Removed;
    RemovedFacts(s, d, k);
  }

  /** What unlink and rmdir take out: the first entry of that name, and only if it leads to a file, or for rmdir
      to a directory without entries. */
  ghost predicate Removes(s: State, d: int, name: string, rmdir: bool)
    requires d in s.nodes
  {
    var x := Look(Listing(s, d), name);
    && s.nodes[d].kind == Dir && ValidName(name) && x in s.nodes
    && if rmdir then s.nodes[x].kind == Dir && Listing(s, x) == [] else s.nodes[x].kind == File
  }

  /** The answer of unlink or rmdir, by the name. */
  lemma VerdictNames(s: State, d: int, name: string, rmdir: bool, k: nat)
    requires Sound(s) && d in s.nodes && d in s.kids && FirstNamed(s, d, name, k)
    requires s.nodes[d].kind == Dir && ValidName(name)
    ensures Verdict(s, d, k, rmdir) == Ok <==> Removes(s, d, name, rmdir)
    ensures var x := Look(Listing(s, d), name);
      && (x != 0 ==> x in s.nodes)
      && Verdict(s, d, k, rmdir) ==
        if x == 0 then NoEnt
        else if rmdir && s.nodes[x].kind != Dir then NotDir
        else if !rmdir && s.nodes[x].kind == Dir then IsDir
        else if rmdir && Listing(s, x) != [] then NotEmpty
        else Ok
  {
    hide NodeOk, CountOk, FirstNamed;
    PlaceLook(s, d, name, k);
    NonNull(s);
    if k < |s.kids[d]| {
      ListingAt(s, d);
      var c := s.kids[d][k];
      var x := Resolves(s.nodes[c], c);
      Listed(s, d, k);
      assert DirOk(s, c);
      ChainIn(s.next, s.first[c], s.kids[c]);
      if s.nodes[c].target != 0 { AliasShape(s, c); }
      ListingAt(s, x);
    }
  }

  lemma UnlinkNames(s: State, op: Op)
    requires Sound(s) && op.Unlink? && Allowed(s.nodes, op)
    ensures var s' := Next(s, op);
      if Removes(s, op.dir, op.name, op.rmdir) then
        exists k :: FirstAt(Listing(s, op.dir), op.name, k) && Loses(s, s', op.dir, k)
      else s' == s
  {
    hide Sound, Removed, Verdict, Removable, Loses;
    var d, name := op.dir, op.name;
    Known(s, op);
    if s.nodes[d].kind == Dir && ValidName(name) {
      var k := Place(s, d, name);
      PlaceLook(s, d, name, k);
      VerdictNames(s, d, name, op.rmdir, k);
      if Verdict(s, d, k, op.rmdir) == Ok {
        Taken(s, d, k, op.rmdir);
        RemovalSound(s, d, k);
        RemovalLoses(s, d, k, Next(s, op));
      }
    }
  }

  /** unlink leaves every directory where it is, and rmdir every file and every directory with entries. */
  lemma WrongKind(s: State, op: Op, x: int)
    requires Sound(s) && op.Unlink? && Allowed(s.nodes, op) && x in s.nodes
    requires if op.rmdir then s.nodes[x].kind == File || Listing(s, x) != [] else s.nodes[x].kind == Dir
    ensures x in Next(s, op).nodes && Next(s, op).nodes[x].parent == s.nodes[x].parent
  {
    hide Sound, Removed, Verdict, Removable;
    var d, name := op.dir, op.name;
    Known(s, op);
    if s.nodes[d].kind == Dir && ValidName(name) {
      var k := Place(s, d, name);
      PlaceLook(s, d, name, k);
      VerdictNames(s, d, name, op.rmdir, k);
      if Verdict(s, d, k, op.rmdir) == Ok {
        Taken(s, d, k, op.rmdir);
        RemovedFacts(s, d, k);
        OtherKind(s, d, k, op.rmdir, x);
        RemovedLists(s, d, k, x);
      }
    }
  }

  lemma OtherKind(s: State, d: int, k: nat, rmdir: bool, x: int)
    requires Sound(s) && d in s.nodes && d in s.kids && k < |s.kids[d]| && x in s.nodes
    requires Verdict(s, d, k, rmdir) == Ok
    requires if rmdir then s.nodes[x].kind == File || Listing(s, x) != [] else s.nodes[x].kind == Dir
    ensures var c := s.kids[d][k]; c in s.nodes && x != c && x != Resolves(s.nodes[c], c)
  {
    hide CountOk;
    Listed(s, d, k);
    var c := s.kids[d][k];
    assert NodeOk(s, c) && DirOk(s, c);
    ChainIn(s.next, s.first[c], s.kids[c]);
    assert Listing(s, c) == [] <==> s.kids[c] == [];
    if s.nodes[c].target != 0 { AliasShape(s, c); }
  }

  /** References have nothing to do with names. */
  lemma RefNames(s: State, op: Op)
    requires Sound(s) && (op.Hold? || op.Let?) && Allowed(s.nodes, op)
    ensures forall d :: d in Next(s, op).nodes ==> Listing(Next(s, op), d) == Listing(s, d)
  {
    hide Sound;
    var s', x := Next(s, op), op.node;
    if op.Hold? { RefSound(s, s', x, s.nodes[x].refs + 1); } else { DropSound(s, x, s'); }
    forall d | d in s'.nodes ensures Listing(s', d) == Listing(s, d) {
      ListingAt(s', d);
      ListingAt(s, d);
      SameShown(s.nodes, s'.nodes, s'.kids[d]);
    }
  }
}
