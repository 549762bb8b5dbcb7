/** Directory entries, hard links and reference counts of the initial ramdisk.

    An inode is named by its address, 0 being the null pointer, and releasing it removes it.  The
    first_child and next_sibling fields are maps of their own; `kids` are the lists they form.
  */
module Initrd {
  import opened Seqs

  datatype Kind = File | Dir

  datatype Status = Ok | NoEnt | NotDir | IsDir | NotEmpty | Exists | CrossDevice | InvalidArg

  /** `target` is the inode that an alias stands for, 0 for an inode of its own. */
  datatype Inode = Inode(kind: Kind, name: string, parent: int, target: int, len: int, links: nat, refs: nat)

  datatype State = State(nodes: map<int, Inode>, first: map<int, int>,
                         next: map<int, int>, kids: map<int, seq<int>>, root: int)

  /** vfs_validate_name. */
  predicate ValidName(name: string) {
    name != [] && '/' !in name && '\0' !in name[..|name| - 1]
  }

  /** The list from `head` along the next fields is l. */
  ghost predicate Chain(next: map<int, int>, head: int, l: seq<int>) {
    head == At(l, 0) && Distinct(l) && forall k :: 0 <= k < |l| ==> LinkAt(next, l, k)
  }

  /** A directory lists its children; one that has any is in the tree. */
  ghost predicate DirOk(s: State, d: int)
    requires d in s.nodes
  {
    && d in s.first && d in s.kids && Chain(s.next, s.first[d], s.kids[d])
    && (forall c :: c in s.kids[d] ==> c in s.nodes && s.nodes[c].parent == d)
    && |s.kids[d]| == s.nodes[d].len
    && (s.kids[d] != [] ==> s.nodes[d].kind == Dir && (d == s.root || s.nodes[d].parent != 0))
  }

  ghost predicate NodeOk(s: State, x: int)
    requires x in s.nodes
  {
    && (s.nodes[x].parent != 0 ==>
      s.nodes[x].parent != x && s.nodes[x].parent in s.nodes && s.nodes[x].parent in s.kids &&
        x in s.kids[s.nodes[x].parent])
    && (s.nodes[x].target != 0 ==>
          s.nodes[x].kind == File && s.nodes[x].parent != 0 && s.nodes[x].target in s.nodes
          && s.nodes[s.nodes[x].target].target == 0 && s.nodes[s.nodes[x].target].kind == File)
  }

  function Resolves(n: Inode, c: int): int {
    if n.target == 0 then c else n.target
  }

  predicate IsEntry(n: Inode, c: int, x: int) {
    n.parent != 0 && Resolves(n, c) == x
  }

  /** The directory entries that resolve to x. */
  ghost function Entries(nodes: map<int, Inode>, x: int): set<int> {
    set c | c in nodes && IsEntry(nodes[c], c, x)
  }

  /** The link count is the number of entries, and an inode without any is kept by a reference. */
  ghost predicate CountOk(nodes: map<int, Inode>, root: int, x: int)
    requires x in nodes
  {
    nodes[x].target == 0 && x != root ==>
      nodes[x].links == |Entries(nodes, x)| && (nodes[x].links == 0 ==> nodes[x].refs > 0)
  }

  ghost predicate Sound(s: State) {
    && 0 !in s.nodes && s.root in s.nodes && s.nodes[s.root].kind == Dir && s.nodes[s.root].target == 0 &&
      s.nodes[s.root].parent == 0
    && s.nodes[s.root].links > 0
    && s.first.Keys == s.next.Keys == s.kids.Keys == s.nodes.Keys
    && (forall d :: d in s.nodes ==> DirOk(s, d))
    && (forall x :: x in s.nodes ==> NodeOk(s, x))
    && (forall x :: x in s.nodes ==> CountOk(s.nodes, s.root, x))
  }

  /** An alias stands for a file of its own that has not been released. */
  lemma AliasTargets(s: State, x: int)
    requires Sound(s) && x in s.nodes && s.nodes[x].target != 0
    ensures s.nodes[x].target in s.nodes && s.nodes[s.nodes[x].target].target == 0
    ensures s.nodes[s.nodes[x].target].links > 0
  {
    var t := s.nodes[x].target;
    assert NodeOk(s, x) && NodeOk(s, t) && CountOk(s.nodes, s.root, t);
    assert x in Entries(s.nodes, t);
  }

  /** Each entry is in the list of exactly one directory, once. */
  lemma OneEntry(s: State, d: int, e: int, i: nat, j: nat)
    requires Sound(s) && d in s.nodes && e in s.nodes && d in s.kids && e in s.kids && i < |s.kids[d]|
    requires j < |s.kids[e]| && s.kids[d][i] == s.kids[e][j]
    ensures d == e && i == j
  {
    assert DirOk(s, d) && DirOk(s, e);
    assert s.kids[d][i] in s.kids[d] && s.kids[e][j] in s.kids[e];
  }

  // Counting entries.

  ghost predicate SameEntry(a: Inode, b: Inode) {
    a.parent == b.parent && a.target == b.target
  }

  lemma InEntries(nodes: map<int, Inode>, x: int, y: int)
    ensures y in Entries(nodes, x) <==> y in nodes && IsEntry(nodes[y], y, x)
  {
  }

  lemma Larger(a: set<int>, b: set<int>, c: int, more: bool)
    requires c !in a && a <= b <= a + {c} && (more <==> c in b)
    ensures |b| == |a| + if more then 1 else 0
  {
    if more {
      assert b == a + {c};
    } else {
      assert b == a;
    }
  }

  lemma EntriesAdd(nodes: map<int, Inode>, nodes': map<int, Inode>, c: int, x: int)
    requires c !in nodes && c in nodes' && nodes'[c].parent != 0 && nodes'.Keys == nodes.Keys + {c}
    requires forall y :: y in nodes ==> SameEntry(nodes[y], nodes'[y])
    ensures |Entries(nodes', x)| == |Entries(nodes, x)| + if Resolves(nodes'[c], c) == x then 1 else 0
  {
    hide Entries;
    var e, e' := Entries(nodes, x), Entries(nodes', x);
    InEntries(nodes, x, c);
    InEntries(nodes', x, c);
    forall y | y in e ensures y in e' {
      InEntries(nodes, x, y);
      InEntries(nodes', x, y);
      assert SameEntry(nodes[y], nodes'[y]);
    }
    forall y | y in e' ensures y in e + {c} {
      InEntries(nodes, x, y);
      InEntries(nodes', x, y);
      if y != c { assert y in nodes.Keys && SameEntry(nodes[y], nodes'[y]); }
    }
    Larger(e, e', c, Resolves(nodes'[c], c) == x);
  }

  /** Entry c goes, with or without its inode. */
  lemma EntriesDrop(nodes: map<int, Inode>, nodes': map<int, Inode>, c: int, x: int)
    requires c in nodes && nodes[c].parent != 0 && (c in nodes' ==> nodes'[c].parent == 0)
    requires nodes'.Keys + {c} == nodes.Keys
    requires forall y :: y in nodes' && y != c ==> y in nodes && SameEntry(nodes[y], nodes'[y])
    ensures |Entries(nodes', x)| == |Entries(nodes, x)| - if Resolves(nodes[c], c) == x then 1 else 0
  {
    hide Entries;
    var e, e' := Entries(nodes', x), Entries(nodes, x);
    InEntries(nodes, x, c);
    InEntries(nodes', x, c);
    forall y | y in e ensures y in e' {
      InEntries(nodes, x, y);
      InEntries(nodes', x, y);
      assert SameEntry(nodes[y], nodes'[y]);
    }
    forall y | y in e' ensures y in e + {c} {
      InEntries(nodes, x, y);
      InEntries(nodes', x, y);
      if y != c { assert y in nodes'.Keys + {c} && SameEntry(nodes[y], nodes'[y]); }
    }
    Larger(e, e', c, Resolves(nodes[c], c) == x);
  }

  lemma EntriesSame(nodes: map<int, Inode>, nodes': map<int, Inode>, x: int)
    requires nodes'.Keys <= nodes.Keys && forall y :: y in nodes && y !in nodes' ==> nodes[y].parent == 0
    requires forall y :: y in nodes' ==> SameEntry(nodes[y], nodes'[y])
    ensures Entries(nodes', x) == Entries(nodes, x)
  {
    forall y ensures y in Entries(nodes', x) <==> y in Entries(nodes, x) {
      if y in nodes' { assert y in nodes.Keys && SameEntry(nodes[y], nodes'[y]); }
    }
  }

  // Lists.

  ghost function AppendNext(next: map<int, int>, l: seq<int>, c: int): map<int, int> {
    if l == [] then next[c := 0] else next[c := 0][l[|l| - 1] := c]
  }

  ghost function RemoveNext(next: map<int, int>, l: seq<int>, k: nat): map<int, int>
    requires k < |l| && l[k] in next
  {
    if k == 0 then next[l[k] := 0] else next[l[k - 1] := next[l[k]]][l[k] := 0]
  }

  lemma ChainAppend(next: map<int, int>, head: int, l: seq<int>, c: int)
    requires Chain(next, head, l) && c != 0 && c !in l
    ensures Chain(AppendNext(next, l, c), if l == [] then c else head, l + [c])
  {
    var next', l' := AppendNext(next, l, c), l + [c];
    forall k | 0 <= k < |l'| ensures LinkAt(next', l', k) {
      if k < |l| { assert LinkAt(next, l, k); }
    }
  }

  lemma ChainRemove(next: map<int, int>, head: int, l: seq<int>, k: nat)
    requires Chain(next, head, l) && k < |l|
    ensures l[k] in next && Chain(RemoveNext(next, l, k), if k == 0 then next[l[k]] else head, RemoveAt(l, k))
  {
    assert LinkAt(next, l, k);
    var next', l' := RemoveNext(next, l, k), RemoveAt(l, k);
    forall j | 0 <= j < |l'| ensures LinkAt(next', l', j) {
      if j < k { assert LinkAt(next, l, j); } else { assert LinkAt(next, l, j + 1) && l'[j] == l[j + 1]; }
    }
  }

  lemma ChainFrame(next: map<int, int>, next': map<int, int>, head: int, l: seq<int>)
    requires Chain(next, head, l) && forall x :: x in l && x in next ==> x in next' && next'[x] == next[x]
    ensures Chain(next', head, l)
  {
    forall k | 0 <= k < |l| ensures LinkAt(next', l, k) { assert LinkAt(next, l, k); }
  }

  lemma ChainIn(next: map<int, int>, head: int, l: seq<int>)
    requires Chain(next, head, l)
    ensures forall x :: x in l ==> x in next && x != 0
    ensures forall j :: 0 <= j < |l| ==> l[j] != 0
  {
    forall j | 0 <= j < |l| ensures l[j] != 0 { assert LinkAt(next, l, j); }
    forall x | x in l ensures x in next && x != 0 {
      var k :| 0 <= k < |l| && l[k] == x;
      assert LinkAt(next, l, k);
    }
  }

  /** Directory e is not concerned by a change at d. */
  lemma DirFrame(s: State, s': State, e: int)
    requires e in s.nodes && DirOk(s, e) && e in s'.nodes && e in s'.first && e in s'.kids
    requires s'.first[e] == s.first[e] && s'.kids[e] == s.kids[e] && s'.root == s.root
    requires s'.nodes[e].len == s.nodes[e].len && s'.nodes[e].kind == s.nodes[e].kind
    requires s.kids[e] != [] ==> e == s.root || s'.nodes[e].parent != 0
    requires forall x :: x in s.kids[e] ==> x in s'.nodes && s'.nodes[x].parent == e
    requires forall x :: x in s.kids[e] && x in s.next ==> x in s'.next && s'.next[x] == s.next[x]
    ensures DirOk(s', e)
  {
    ChainFrame(s.next, s'.next, s.first[e], s.kids[e]);
  }

  // A new entry.

  /** Inode n at address c joins the end of directory d. */
  ghost function Join(s: State, d: int, c: int, n: Inode): State
    requires d in s.nodes && d in s.first && d in s.kids
  {
    State(s.nodes[c := n][d := s.nodes[d].(len := s.nodes[d].len + 1)],
          s.first[c := 0][d := if s.kids[d] == [] then c else s.first[d]],
          AppendNext(s.next, s.kids[d], c), s.kids[c := []][d := s.kids[d] + [c]], s.root)
  }

  /** A directory in which entries may be made: in the tree. */
  ghost predicate Open(s: State, d: int) {
    d in s.nodes && s.nodes[d].kind == Dir && (d == s.root || s.nodes[d].parent != 0)
  }

  lemma NotListed(s: State, d: int, c: int)
    requires Sound(s) && d in s.nodes && c !in s.nodes
    ensures d in s.kids && c !in s.kids[d]
  {
    assert DirOk(s, d);
  }

  lemma OtherKids(s: State, d: int, e: int, x: int)
    requires Sound(s) && d in s.nodes && e in s.nodes && d != e && e in s.kids && x in s.kids[e]
    ensures d in s.kids && x !in s.kids[d]
  {
    assert DirOk(s, d) && DirOk(s, e);
  }

  lemma JoinDirs(s: State, d: int, c: int, n: Inode, s': State)
    requires Sound(s) && Open(s, d) && c !in s.nodes && c != 0 && n.parent == d && n.len == 0 && d in s.first
    requires d in s.kids && s' == Join(s, d, c, n)
    ensures forall e :: e in s'.nodes ==> DirOk(s', e)
  {
    hide NodeOk, CountOk;
    forall e | e in s'.nodes ensures DirOk(s', e) {
      if e == d {
        JoinHere(s, d, c, n, s');
      } else if e != c {
        assert DirOk(s, e);
        NotListed(s, e, c);
        forall x | x in s.kids[e] && x in s.next ensures x in s'.next && s'.next[x] == s.next[x] {
          OtherKids(s, d, e, x);
        }
        forall x | x in s.kids[e] ensures x in s'.nodes && s'.nodes[x].parent == e {}
        DirFrame(s, s', e);
      }
    }
  }

  lemma JoinHere(s: State, d: int, c: int, n: Inode, s': State)
    requires d in s.nodes && DirOk(s, d) && Open(s, d) && c !in s.nodes && c != 0 && n.parent == d && d in s.first
    requires d in s.kids && s' == Join(s, d, c, n)
    ensures DirOk(s', d)
  {
    ChainAppend(s.next, s.first[d], s.kids[d], c);
  }

  lemma NothingFor(s: State, c: int)
    requires Sound(s) && c !in s.nodes
    ensures Entries(s.nodes, c) == {}
  {
    hide DirOk, CountOk;
    forall y ensures y !in Entries(s.nodes, c) {
      InEntries(s.nodes, c, y);
      if y in s.nodes { assert NodeOk(s, y); }
    }
  }

  lemma JoinKeys(s: State, d: int, c: int)
    requires Sound(s) && d in s.nodes && d in s.kids
    ensures AppendNext(s.next, s.kids[d], c).Keys == s.next.Keys + {c}
  {
    assert DirOk(s, d);
    ChainIn(s.next, s.first[d], s.kids[d]);
    assert s.kids[d] != [] ==> s.kids[d][|s.kids[d]| - 1] in s.kids[d];
  }

  /** A new file or directory keeps the invariant. */
  lemma JoinSound(s: State, d: int, c: int, n: Inode, s': State)
    requires Sound(s) && Open(s, d) && c !in s.nodes && c != 0 && d in s.first && d in s.kids
    requires n.parent == d && n.len == 0 && n.target == 0 && n.links == 1 && s' == Join(s, d, c, n)
    ensures Sound(s')
  {
    hide DirOk, Entries;
    JoinKeys(s, d, c);
    JoinDirs(s, d, c, n, s');
    forall x | x in s'.nodes ensures NodeOk(s', x) { JoinNode(s, d, c, n, s', x); }
    NothingFor(s, c);
    forall x | x in s'.nodes ensures CountOk(s'.nodes, s'.root, x) {
      EntriesAdd(s.nodes, s'.nodes, c, x);
      if x != c { assert CountOk(s.nodes, s.root, x); }
    }
  }

  /** A new entry keeps the invariant if and only if its directory is in the tree. */
  lemma JoinExact(s: State, d: int, c: int, n: Inode, s': State)
    requires Sound(s) && d in s.nodes && s.nodes[d].kind == Dir && c !in s.nodes && c != 0 && d in s.first
    requires d in s.kids
    requires n.parent == d && n.len == 0 && n.target == 0 && n.links == 1 && s' == Join(s, d, c, n)
    ensures Sound(s') <==> Open(s, d)
  {
    if Open(s, d) {
      JoinSound(s, d, c, n, s');
    } else {
      JoinAstray(s, d, c, n, s');
    }
  }

  lemma JoinAstray(s: State, d: int, c: int, n: Inode, s': State)
    requires d in s.nodes && d in s.first && d in s.kids && s.nodes[d].kind == Dir && !Open(s, d)
    requires s' == Join(s, d, c, n)
    ensures !Sound(s')
  {
    hide NodeOk, CountOk, Chain;
    assert s'.kids[d] != [] && !DirOk(s', d);
  }

  lemma JoinNode(s: State, d: int, c: int, n: Inode, s': State, x: int)
    requires d in s.nodes && c !in s.nodes && c != d && d in s.first && d in s.kids && n.parent == d && d != 0
    requires s' == Join(s, d, c, n) && x in s'.nodes && (x in s.nodes ==> NodeOk(s, x))
    requires n.target != 0 ==>
      n.kind == File && n.target in s.nodes && n.target != d && s.nodes[n.target].target == 0 &&
        s.nodes[n.target].kind == File
    ensures NodeOk(s', x)
  {
    if x != c {
      var e := s.nodes[x].parent;
      assert s'.nodes[x].parent == e && s'.nodes[x].target == s.nodes[x].target && s'.nodes[x].kind == s.nodes[x].kind;
      if e != 0 { assert e != c && (if e == d then s'.kids[e] == s.kids[e] + [c] else s'.kids[e] == s.kids[e]); }
    } else {
      assert s'.kids[d] == s.kids[d] + [c];
    }
  }

  /** Join for an alias of t, which gains a link. */
  ghost function JoinAlias(s: State, d: int, c: int, n: Inode): State
    requires d in s.nodes && d in s.first && d in s.kids && n.target in s.nodes && n.target != d
  {
    var s1 := Join(s, d, c, n);
    s1.(nodes := s1.nodes[n.target := s.nodes[n.target].(links := s.nodes[n.target].links + 1)])
  }

  lemma JoinAliasSound(s: State, d: int, c: int, n: Inode, s': State)
    requires Sound(s) && Open(s, d) && c !in s.nodes && c != 0 && d in s.first && d in s.kids
    requires n.parent == d && n.len == 0 && n.kind == File && n.target != 0 && n.target in s.nodes && n.target != d
    requires s.nodes[n.target].target == 0 && s.nodes[n.target].kind == File && s' == JoinAlias(s, d, c, n)
    ensures Sound(s')
  {
    hide DirOk, NodeOk, CountOk;
    JoinKeys(s, d, c);
    JoinAliasTree(s, d, c, n, s');
    JoinAliasCounts(s, d, c, n, s');
  }

  lemma JoinAliasTree(s: State, d: int, c: int, n: Inode, s': State)
    requires Sound(s) && Open(s, d) && c !in s.nodes && c != 0 && d in s.first && d in s.kids
    requires n.parent == d && n.len == 0 && n.kind == File && n.target != 0 && n.target in s.nodes && n.target != d
    requires s.nodes[n.target].target == 0 && s.nodes[n.target].kind == File && s' == JoinAlias(s, d, c, n)
    ensures forall x :: x in s'.nodes ==> DirOk(s', x) && NodeOk(s', x)
  {
    hide DirOk, NodeOk, CountOk;
    var s1 := Join(s, d, c, n);
    JoinDirs(s, d, c, n, s1);
    forall x | x in s1.nodes ensures NodeOk(s1, x) { JoinNode(s, d, c, n, s1, x); }
    forall x | x in s'.nodes ensures DirOk(s', x) && NodeOk(s', x) {
      BumpDir(s1, s', x);
      BumpNode(s1, s', x);
    }
  }

  lemma JoinAliasCounts(s: State, d: int, c: int, n: Inode, s': State)
    requires Sound(s) && Open(s, d) && c !in s.nodes && c != 0 && d in s.first && d in s.kids
    requires n.parent == d && n.len == 0 && n.kind == File && n.target != 0 && n.target in s.nodes && n.target != d
    requires s.nodes[n.target].target == 0 && s.nodes[n.target].kind == File && s' == JoinAlias(s, d, c, n)
    ensures forall x :: x in s'.nodes ==> CountOk(s'.nodes, s'.root, x)
  {
    hide DirOk, NodeOk, Entries;
    forall x | x in s'.nodes ensures CountOk(s'.nodes, s'.root, x) {
      EntriesAdd(s.nodes, s'.nodes, c, x);
      if x != c { assert CountOk(s.nodes, s.root, x); }
    }
  }

  /** Only counts differ. */
  ghost predicate SameTree(s: State, s': State) {
    && s' == s.(nodes := s'.nodes) && s'.nodes.Keys == s.nodes.Keys
    && forall x :: x in s.nodes ==> s'.nodes[x] == s.nodes[x].(links := s'.nodes[x].links, refs := s'.nodes[x].refs)
  }

  lemma BumpDir(s: State, s': State, x: int)
    requires SameTree(s, s') && x in s.nodes && DirOk(s, x)
    ensures DirOk(s', x)
  {
  }

  lemma BumpNode(s: State, s': State, x: int)
    requires SameTree(s, s') && x in s.nodes && NodeOk(s, x)
    ensures NodeOk(s', x)
  {
  }

  /** The reference count of x changes and stays positive if it has to. */
  lemma RefSound(s: State, s': State, x: int, n: nat)
    requires Sound(s) && x in s.nodes && s' == s.(nodes := s.nodes[x := s.nodes[x].(refs := n)])
    requires s.nodes[x].target == 0 && s.nodes[x].links == 0 ==> n > 0
    ensures Sound(s')
  {
    hide DirOk, NodeOk, Entries;
    forall y | y in s'.nodes ensures DirOk(s', y) { BumpDir(s, s', y); }
    forall y | y in s'.nodes ensures NodeOk(s', y) { BumpNode(s, s', y); }
    forall y | y in s'.nodes ensures CountOk(s'.nodes, s'.root, y) {
      EntriesSame(s.nodes, s'.nodes, y);
      assert CountOk(s.nodes, s.root, y);
    }
  }

  // Release.

  ghost function Erase(s: State, x: int): State {
    State(s.nodes - {x}, s.first - {x}, s.next - {x}, s.kids - {x}, s.root)
  }

  /** An inode without entries is in no directory, has no children and no alias. */
  lemma Unreachable(s: State, x: int)
    requires Sound(s) && x in s.nodes && x != s.root && s.nodes[x].target == 0 && s.nodes[x].links == 0
    ensures s.nodes[x].parent == 0 && x in s.kids && s.kids[x] == []
    ensures forall y :: y in s.nodes ==> s.nodes[y].target != x
    ensures forall d :: d in s.nodes && d in s.kids ==> x !in s.kids[d]
  {
    hide Entries;
    assert CountOk(s.nodes, s.root, x) && NodeOk(s, x) && DirOk(s, x);
    InEntries(s.nodes, x, x);
    forall y | y in s.nodes ensures s.nodes[y].target != x {
      InEntries(s.nodes, x, y);
      assert NodeOk(s, y);
    }
    forall d | d in s.nodes && d in s.kids ensures x !in s.kids[d] { assert DirOk(s, d); }
  }

  lemma EraseSound(s: State, x: int, s': State)
    requires Sound(s) && x in s.nodes && x != s.root && s.nodes[x].target == 0 && s.nodes[x].links == 0
    requires s' == Erase(s, x)
    ensures Sound(s')
  {
    hide Entries, CountOk;
    Unreachable(s, x);
    forall d | d in s'.nodes ensures DirOk(s', d) {
      assert DirOk(s, d);
      DirFrame(s, s', d);
    }
    forall y | y in s'.nodes ensures NodeOk(s', y) { EraseNode(s, x, s', y); }
    forall y | y in s'.nodes ensures CountOk(s'.nodes, s'.root, y) { EraseCount(s, x, s', y); }
  }

  lemma EraseNode(s: State, x: int, s': State, y: int)
    requires Sound(s) && y in s.nodes && y != x && s' == Erase(s, x)
    requires forall z :: z in s.nodes ==> s.nodes[z].target != x
    requires x in s.kids && s.kids[x] == []
    ensures NodeOk(s', y)
  {
    assert NodeOk(s, y);
  }

  lemma EraseCount(s: State, x: int, s': State, y: int)
    requires y in s.nodes && y != x && CountOk(s.nodes, s.root, y) && x in s.nodes && s.nodes[x].parent == 0
    requires s' == Erase(s, x)
    ensures CountOk(s'.nodes, s'.root, y)
  {
    hide Entries;
    EntriesSame(s.nodes, s'.nodes, y);
  }

  /** vfs_vnode_release: the last reference to an inode without links releases it. */
  ghost function Drop(s: State, x: int): State
    requires x in s.nodes
  {
    var n := s.nodes[x];
    if n.refs == 0 then s
    else if n.refs == 1 && n.links == 0 then Erase(s, x)
    else s.(nodes := s.nodes[x := n.(refs := n.refs - 1)])
  }

  lemma DropSound(s: State, x: int, s': State)
    requires Sound(s) && x in s.nodes && s.nodes[x].target == 0 && s' == Drop(s, x)
    ensures Sound(s')
  {
    hide Sound;
    var n := s.nodes[x];
    if n.refs == 1 && n.links == 0 {
      RootLinked(s);
      EraseSound(s, x, s');
    } else if n.refs > 0 {
      RefSound(s, s', x, n.refs - 1);
    }
  }

  lemma RootLinked(s: State)
    requires Sound(s)
    ensures s.root in s.nodes && s.nodes[s.root].links > 0
  {
  }

  // An entry goes.

  /** detach_child of the k-th child of d. */
  ghost function Detach(s: State, d: int, k: nat): State
    requires d in s.nodes && d in s.first && d in s.kids && k < |s.kids[d]| && s.kids[d][k] in s.nodes
    requires s.kids[d][k] in s.next
  {
    var c := s.kids[d][k];
    State(s.nodes[c := s.nodes[c].(parent := 0)][d := s.nodes[d].(len := s.nodes[d].len - 1)],
          s.first[d := if k == 0 then s.next[c] else s.first[d]],
          RemoveNext(s.next, s.kids[d], k), s.kids[d := RemoveAt(s.kids[d], k)], s.root)
  }

  lemma Listed(s: State, d: int, k: nat)
    requires Sound(s) && d in s.nodes && d in s.kids && k < |s.kids[d]|
    ensures var c := s.kids[d][k];
      c in s.nodes && c in s.next && c in s.kids && s.nodes[c].parent == d && c != d && c != s.root && d in s.first
    ensures s.nodes[d].kind == Dir && s.nodes[d].len > 0
  {
    assert DirOk(s, d);
    assert s.kids[d][k] in s.kids[d];
    ChainIn(s.next, s.first[d], s.kids[d]);
    assert NodeOk(s, s.kids[d][k]);
  }

  lemma RemovedKids(l: seq<int>, k: nat)
    requires Distinct(l) && k < |l|
    ensures forall x :: x in RemoveAt(l, k) <==> x in l && x != l[k]
    ensures |RemoveAt(l, k)| == |l| - 1
  {
    forall x | x in l && x != l[k] ensures x in RemoveAt(l, k) {
      var j :| 0 <= j < |l| && l[j] == x;
      assert RemoveAt(l, k)[if j < k then j else j - 1] == x;
    }
  }

  /** The tree after entry k of d is gone; the counts are not looked at. */
  lemma DetachTree(s: State, d: int, k: nat, s': State)
    requires Sound(s) && d in s.nodes && d in s.kids && k < |s.kids[d]| && d in s.first && s.kids[d][k] in s.nodes
    requires s.kids[d][k] in s.next
    requires s.kids[d][k] in s.kids && s.kids[s.kids[d][k]] == [] && s' == Detach(s, d, k)
    ensures forall e :: e in s'.nodes ==> DirOk(s', e)
    ensures s'.nodes.Keys == s.nodes.Keys == s'.first.Keys == s'.next.Keys == s'.kids.Keys
  {
    hide NodeOk, CountOk, RemoveAt;
    Listed(s, d, k);
    var c := s.kids[d][k];
    DetachKeys(s, d, k);
    forall e | e in s'.nodes ensures DirOk(s', e) {
      if e == d {
        DetachHere(s, d, k, s');
      } else {
        assert DirOk(s, e);
        forall x | x in s.kids[e] ensures x in s'.nodes && s'.nodes[x].parent == e { OtherKids(s, d, e, x); }
        forall x | x in s.kids[e] && x in s.next ensures x in s'.next && s'.next[x] == s.next[x] {
          OtherKids(s, d, e, x);
        }
        DirFrame(s, s', e);
      }
    }
  }

  lemma DetachKeys(s: State, d: int, k: nat)
    requires Sound(s) && d in s.nodes && d in s.kids && k < |s.kids[d]| && s.kids[d][k] in s.next
    ensures RemoveNext(s.next, s.kids[d], k).Keys == s.next.Keys
    ensures forall x :: x in s.next && x !in s.kids[d] ==> RemoveNext(s.next, s.kids[d], k)[x] == s.next[x]
  {
    assert DirOk(s, d);
    ChainIn(s.next, s.first[d], s.kids[d]);
    assert k > 0 ==> s.kids[d][k - 1] in s.kids[d];
  }

  lemma DetachHere(s: State, d: int, k: nat, s': State)
    requires d in s.nodes && DirOk(s, d) && d in s.first && d in s.kids && k < |s.kids[d]| && s.kids[d][k] in s.nodes
    requires s.kids[d][k] in s.next
    requires s.kids[d][k] != d && s' == Detach(s, d, k)
    ensures DirOk(s', d)
  {
    ChainRemove(s.next, s.first[d], s.kids[d], k);
    RemovedKids(s.kids[d], k);
  }

  /** Entry k of d, an inode of its own, goes and loses a link; somebody refers to it. */
  ghost function Unlinked(s: State, d: int, k: nat): State
    requires d in s.nodes && d in s.first && d in s.kids && k < |s.kids[d]| && s.kids[d][k] in s.nodes
    requires s.kids[d][k] in s.next && s.kids[d][k] != d
    requires s.nodes[s.kids[d][k]].links > 0
  {
    var c, s1 := s.kids[d][k], Detach(s, d, k);
    s1.(nodes := s1.nodes[c := s1.nodes[c].(links := s1.nodes[c].links - 1)])
  }

  lemma OwnLinked(s: State, d: int, k: nat)
    requires Sound(s) && d in s.nodes && d in s.kids && k < |s.kids[d]| && s.kids[d][k] in s.nodes
    requires s.nodes[s.kids[d][k]].target == 0
    ensures s.nodes[s.kids[d][k]].links > 0
  {
    hide Entries;
    var c := s.kids[d][k];
    Listed(s, d, k);
    assert NodeOk(s, c) && CountOk(s.nodes, s.root, c);
    InEntries(s.nodes, c, c);
  }

  lemma UnlinkedSound(s: State, d: int, k: nat, s': State)
    requires Sound(s) && d in s.nodes && d in s.first && d in s.kids && k < |s.kids[d]| && s.kids[d][k] in s.nodes
    requires s.kids[d][k] in s.next && s.kids[d][k] != d
    requires var c := s.kids[d][k];
      c in s.kids && s.kids[c] == [] && s.nodes[c].target == 0 && s.nodes[c].links > 0 && s.nodes[c].refs > 0
    requires s' == Unlinked(s, d, k)
    ensures Sound(s')
  {
    hide DirOk, Entries, NodeOk, RemoveAt, RemoveNext;
    var c, s1 := s.kids[d][k], Detach(s, d, k);
    Listed(s, d, k);
    DetachTree(s, d, k, s1);
    forall x | x in s'.nodes ensures DirOk(s', x) { BumpDir(s1, s', x); }
    forall x | x in s'.nodes ensures NodeOk(s', x) {
      DetachNode(s, d, k, s1, x);
      BumpNode(s1, s', x);
    }
    forall x | x in s'.nodes ensures CountOk(s'.nodes, s'.root, x) {
      EntriesDrop(s.nodes, s'.nodes, c, x);
      assert CountOk(s.nodes, s.root, x);
    }
  }

  lemma DetachNode(s: State, d: int, k: nat, s': State, x: int)
    requires Sound(s) && d in s.nodes && d in s.first && d in s.kids && k < |s.kids[d]| && s.kids[d][k] in s.nodes
    requires s.kids[d][k] in s.next && s.kids[d][k] != d
    requires s' == Detach(s, d, k) && x in s.nodes && (x == s.kids[d][k] ==> s.nodes[x].target == 0)
    ensures NodeOk(s', x)
  {
    hide CountOk, RemoveAt;
    assert NodeOk(s, x) && DirOk(s, d);
    RemovedKids(s.kids[d], k);
  }

  /** Entry k of d, an alias, goes with its inode, and what it stood for loses a link. */
  ghost function Unaliased(s: State, d: int, k: nat): State
    requires d in s.nodes && d in s.first && d in s.kids && k < |s.kids[d]| && s.kids[d][k] in s.nodes
    requires s.kids[d][k] in s.next && s.kids[d][k] != d
    requires var t := s.nodes[s.kids[d][k]].target; t in s.nodes && t != d && t != s.kids[d][k] && s.nodes[t].links > 0
  {
    var c := s.kids[d][k];
    var t := s.nodes[c].target;
    var s1 := Erase(Detach(s, d, k), c);
    s1.(nodes := s1.nodes[t := s.nodes[t].(links := s.nodes[t].links - 1)])
  }

  lemma UnaliasedTree(s: State, d: int, k: nat, s': State)
    requires Sound(s) && d in s.nodes && d in s.first && d in s.kids && k < |s.kids[d]| && s.kids[d][k] in s.nodes
    requires s.kids[d][k] in s.next && s.kids[d][k] != d
    requires var c := s.kids[d][k]; var t := s.nodes[c].target;
      c in s.kids && s.kids[c] == [] && t != 0 && t in s.nodes && t != d && t != c && s.nodes[t].links > 0
    requires s' == Unaliased(s, d, k)
    ensures forall x :: x in s'.nodes ==> DirOk(s', x) && NodeOk(s', x)
    ensures s'.nodes.Keys == s.nodes.Keys - {s.kids[d][k]} == s'.first.Keys == s'.next.Keys == s'.kids.Keys
  {
    hide DirOk, Entries, NodeOk, RemoveAt, RemoveNext, CountOk;
    var c, s1 := s.kids[d][k], Detach(s, d, k);
    var s2 := Erase(s1, c);
    DetachTree(s, d, k, s1);
    forall x | x in s'.nodes ensures DirOk(s', x) && NodeOk(s', x) {
      GoneDir(s1, c, s2, x);
      BumpDir(s2, s', x);
      GoneNode(s, d, k, s2, x);
      BumpNode(s2, s', x);
    }
  }

  lemma UnaliasedSound(s: State, d: int, k: nat, s': State)
    requires Sound(s) && d in s.nodes && d in s.first && d in s.kids && k < |s.kids[d]| && s.kids[d][k] in s.nodes
    requires s.kids[d][k] in s.next && s.kids[d][k] != d
    requires var c := s.kids[d][k]; var t := s.nodes[c].target;
      c in s.kids && t != 0 && t in s.nodes && t != d && t != c && s.nodes[t].links > 0 && s.nodes[t].refs > 0
    requires s' == Unaliased(s, d, k)
    ensures Sound(s')
  {
    hide DirOk, Entries, NodeOk, RemoveAt, RemoveNext, CountOk;
    var c := s.kids[d][k];
    Listed(s, d, k);
    AliasShape(s, c);
    UnaliasedTree(s, d, k, s');
    forall x | x in s'.nodes ensures CountOk(s'.nodes, s'.root, x) { GoneCount(s, d, k, s', x); }
  }

  lemma AliasShape(s: State, c: int)
    requires Sound(s) && c in s.nodes && c in s.kids && s.nodes[c].target != 0
    ensures s.kids[c] == [] && s.nodes[c].target in s.nodes && s.nodes[s.nodes[c].target].target == 0
    ensures s.nodes[s.nodes[c].target].kind == File
    ensures s.nodes[c].target != c && s.nodes[s.nodes[c].target].links > 0
  {
    assert DirOk(s, c) && NodeOk(s, c);
    AliasTargets(s, c);
  }

  lemma GoneDir(s1: State, c: int, s2: State, x: int)
    requires x in s1.nodes && x != c && x != 0 && DirOk(s1, x) && c in s1.nodes && s1.nodes[c].parent == 0
    requires s2 == Erase(s1, c)
    ensures DirOk(s2, x)
  {
    DirFrame(s1, s2, x);
  }

  lemma GoneNode(s: State, d: int, k: nat, s2: State, x: int)
    requires Sound(s) && d in s.nodes && d in s.first && d in s.kids && k < |s.kids[d]| && s.kids[d][k] in s.nodes
    requires s.kids[d][k] in s.next && s.kids[d][k] != d
    requires var c := s.kids[d][k];
      c in s.kids && s.kids[c] == [] && s.nodes[c].target != 0 && s2 == Erase(Detach(s, d, k), c)
    requires x in s.nodes && x != s.kids[d][k]
    ensures x in s2.nodes && NodeOk(s2, x)
  {
    hide RemoveAt, RemoveNext, CountOk;
    var s1 := Detach(s, d, k);
    DetachNode(s, d, k, s1, x);
    assert NodeOk(s, x);
  }

  lemma GoneCount(s: State, d: int, k: nat, s': State, x: int)
    requires Sound(s) && d in s.nodes && d in s.first && d in s.kids && k < |s.kids[d]| && s.kids[d][k] in s.nodes
    requires s.kids[d][k] in s.next && s.kids[d][k] != d
    requires var c := s.kids[d][k]; var t := s.nodes[c].target;
      c in s.kids && t != 0 && t in s.nodes && t != d && t != c && s.nodes[t].links > 0 && s.nodes[t].refs > 0
    requires s' == Unaliased(s, d, k) && x in s'.nodes
    ensures CountOk(s'.nodes, s'.root, x)
  {
    hide DirOk, Entries, NodeOk, RemoveAt, RemoveNext;
    Listed(s, d, k);
    EntriesDrop(s.nodes, s'.nodes, s.kids[d][k], x);
    assert CountOk(s.nodes, s.root, x);
  }

  // The operations.

  ghost function Raise(s: State, x: int): State
    requires x in s.nodes
  {
    s.(nodes := s.nodes[x := s.nodes[x].(refs := s.nodes[x].refs + 1)])
  }

  /** The first child of d with this name; |kids| if there is none. */
  ghost predicate FirstNamed(s: State, d: int, name: string, k: nat)
    requires d in s.kids
  {
    && k <= |s.kids[d]| && (forall j :: 0 <= j < k ==> s.kids[d][j] in s.nodes && s.nodes[s.kids[d][j]].name != name)
    && (k < |s.kids[d]| ==> s.kids[d][k] in s.nodes && s.nodes[s.kids[d][k]].name == name)
  }

  /** The mount that a node belongs to, found by climbing: this filesystem's, none for a node that was
      removed, or no answer at all from deeper than the climb goes. */
  datatype Owner = Mounted | Nobody | TooDeep

  const MAX_DEPTH := 1024

  function OwnerOf(nodes: map<int, Inode>, root: int, x: int, depth: nat): Owner
    decreases depth
  {
    if depth == 0 then TooDeep
    else if x == root then Mounted
    else if x !in nodes || nodes[x].parent == 0 then Nobody
    else OwnerOf(nodes, root, nodes[x].parent, depth - 1)
  }

  /** A removed directory belongs to no mount. */
  lemma Owned(nodes: map<int, Inode>, root: int, d: int)
    requires OwnerOf(nodes, root, d, MAX_DEPTH) != Nobody
    ensures d == root || (d in nodes && nodes[d].parent != 0)
  {
  }

  /** What vfs_link answers. */
  ghost function LinkVerdict(s: State, d: int, name: string, t: int): Status
    requires d in s.nodes && t in s.nodes && d in s.kids
  {
    var mt, md := OwnerOf(s.nodes, s.root, t, MAX_DEPTH), OwnerOf(s.nodes, s.root, d, MAX_DEPTH);
    if s.nodes[t].kind == Dir then IsDir
    else if s.nodes[d].kind != Dir then NotDir
    else if !ValidName(name) then InvalidArg
    else if mt == Nobody || md == Nobody then NoEnt
    else if mt != md then CrossDevice
    else if !FirstNamed(s, d, name, |s.kids[d]|) then Exists
    else Ok
  }

  /** The root directory alone. */
  ghost function Empty(root: int): State {
    State(map[root := Inode(Dir, "", 0, 0, 0, 1, 0)], map[root := 0], map[root := 0], map[root := []], root)
  }

  class Ramdisk {
    const root: int
    var nodes: map<int, Inode>
    var first: map<int, int>
    var next: map<int, int>
    ghost var kids: map<int, seq<int>>

    ghost function Abs(): State
      reads this
    {
      State(nodes, first, next, kids, root)
    }

    /** create_root. */
    constructor (r: int)
      requires r != 0
      ensures Abs() == Empty(r) && Sound(Abs())
    {
      root := r;
      nodes, first, next, kids := map[r := Inode(Dir, "", 0, 0, 0, 1, 0)], map[r := 0], map[r := 0], map[r := []];
    }

    /** find_child. */
    method FindChild(d: int, name: string) returns (c: int, ghost k: nat)
      requires Sound(Abs()) && d in nodes
      ensures d in kids && FirstNamed(Abs(), d, name, k) && c == At(kids[d], k) && (c == 0 <==> k == |kids[d]|)
    {
      hide NodeOk, CountOk;
      assert DirOk(Abs(), d);
      ChainIn(next, first[d], kids[d]);
      c, k := first[d], 0;
      while c != 0
        invariant k <= |kids[d]| && c == At(kids[d], k)
        invariant forall j :: 0 <= j < k ==> kids[d][j] in nodes && nodes[kids[d][j]].name != name
        decreases |kids[d]| - k
      {
        assert kids[d][k] in kids[d] && LinkAt(next, kids[d], k);
        if nodes[c].name == name { return; }
        c := next[c];
        k := k + 1;
      }
    }

    /** add_child of a new inode. */
    method AddChild(d: int, c: int, n: Inode)
      requires Sound(Abs()) && d in nodes && c !in nodes && c != 0
      modifies this
      ensures d in old(first) && d in old(kids) && Abs() == Join(old(Abs()), d, c, n)
    {
      hide NodeOk, CountOk;
      assert DirOk(Abs(), d);
      ghost var l, next0 := kids[d], next;
      ChainIn(next, first[d], l);
      NotListed(Abs(), d, c);
      nodes := nodes[c := n];
      first := first[c := 0];
      next := next[c := 0];
      if first[d] == 0 {
        first := first[d := c];
      } else {
        ChainFrame(next0, next, first[d], l);
        var last := LastChild(d, l);
        next := next[last := c];
      }
      nodes := nodes[d := nodes[d].(len := nodes[d].len + 1)];
      kids := kids[c := []][d := l + [c]];
    }

    /** The walk of add_child to the last sibling. */
    method LastChild(d: int, ghost l: seq<int>) returns (last: int)
      requires d in first && Chain(next, first[d], l) && l != []
      ensures last == l[|l| - 1]
    {
      ghost var k := 0;
      ChainIn(next, first[d], l);
      assert LinkAt(next, l, 0);
      last := first[d];
      while next[last] != 0
        invariant k < |l| && last == l[k] && LinkAt(next, l, k)
        decreases |l| - k
      {
        last := next[last];
        k := k + 1;
        assert LinkAt(next, l, k);
      }
    }

    /** detach_child: entry k of the directory d that c says it is in. */
    method DetachChild(c: int, ghost d: int, ghost k: nat)
      requires Sound(Abs()) && d in nodes && d in kids && k < |kids[d]| && c == kids[d][k]
      modifies this
      ensures d in old(first) && c in old(nodes) && c in old(next) && Abs() == Detach(old(Abs()), d, k)
    {
      hide NodeOk, CountOk, Detach;
      Listed(Abs(), d, k);
      assert DirOk(Abs(), d);
      ghost var l := kids[d];
      ChainIn(next, first[d], l);
      var parent := nodes[c].parent;
      var prev, n := 0, first[parent];
      ghost var j := 0;
      while n != c
        invariant j <= k && n == l[j] && prev == At(l, j - 1)
        decreases k - j
      {
        assert j < k && LinkAt(next, l, j) by { assert n == l[j] && n != l[k]; }
        prev := n;
        n := next[n];
        j := j + 1;
      }
      assert j == k by { Same(l, j, k); }
      CutOut(c, parent, prev, k);
    }

    /** The body of the loop of detach_child. */
    method CutOut(c: int, d: int, prev: int, ghost k: nat)
      requires d in nodes && d in first && d in kids && k < |kids[d]| && c == kids[d][k] && c in nodes && c in next
      requires c != d && nodes[d].len > 0
      requires prev == At(kids[d], k - 1) && (prev == 0 <==> k == 0) && (prev != 0 ==> prev in next)
      modifies this
      ensures Abs() == Detach(old(Abs()), d, k)
    {
      if prev == 0 {
        first := first[d := next[c]];
      } else {
        next := next[prev := next[c]];
      }
      next := next[c := 0];
      nodes := nodes[c := nodes[c].(parent := 0)];
      if nodes[d].len > 0 { nodes := nodes[d := nodes[d].(len := nodes[d].len - 1)]; }
      kids := kids[d := RemoveAt(kids[d], k)];
    }

    /** vfs_vnode_borrow. */
    method Borrow(x: int)
      requires x in nodes
      modifies this
      ensures Abs() == Raise(old(Abs()), x) && (old(Sound(Abs())) ==> Sound(Abs()))
    {
      hide Sound;
      if Sound(Abs()) { RefSound(Abs(), Raise(Abs(), x), x, nodes[x].refs + 1); }
      nodes := nodes[x := nodes[x].(refs := nodes[x].refs + 1)];
    }

    /** vfs_vnode_release, with initrd_free for an inode nobody needs any more. */
    method Release(x: int)
      requires x in nodes && nodes[x].target == 0
      modifies this
      ensures Abs() == Drop(old(Abs()), x) && (old(Sound(Abs())) ==> Sound(Abs()))
    {
      hide Sound;
      if Sound(Abs()) { DropSound(Abs(), x, Drop(Abs(), x)); }
      if nodes[x].refs == 0 { return; }
      nodes := nodes[x := nodes[x].(refs := nodes[x].refs - 1)];
      if nodes[x].refs == 0 && nodes[x].links == 0 {
        Forget(x);
        assert nodes == old(nodes) - {x};
      }
    }

    method Forget(x: int)
      requires x in nodes
      modifies this
      ensures Abs() == Erase(old(Abs()), x)
    {
      nodes, first, next := nodes - {x}, first - {x}, next - {x};
      kids := kids - {x};
    }

    /** vfs_create, or vfs_mkdir without the trailing slashes of the name; c is the inode that slab_calloc
        gave.  The new node is handed to the caller with a reference if `keep`.  The directory is not
        asked whether it is still in the tree. */
    method Create(d: int, name: string, kind: Kind, c: int, keep: bool) returns (status: Status)
      requires Sound(Abs()) && d in nodes && c !in nodes && c != 0
      modifies this
      ensures Sound(Abs()) <==> status != Ok || old(Open(Abs(), d))
      ensures status == if old(nodes)[d].kind != Dir then NotDir else if !ValidName(name) then InvalidArg else Ok
      ensures status != Ok ==> Abs() == old(Abs())
      ensures status == Ok ==> d in old(first) && d in old(kids)
      ensures status == Ok ==> Abs() == Join(old(Abs()), d, c, Inode(kind, name, d, 0, 0, 1, if keep then 1 else 0))
    {
      hide Sound, Join;
      if nodes[d].kind != Dir { return NotDir; }
      if !ValidName(name) { return InvalidArg; }
      ghost var s := Abs();
      var n := Inode(kind, name, d, 0, 0, 1, 0);
      AddChild(d, c, n);
      JoinAt(s, d, c, n);
      Borrow(c);
      if !keep { Release(c); }
      JoinExact(s, d, c, nodes[c], Abs());
      return Ok;
    }

    /** vnode_owning_mount, with this filesystem mounted at its root; the borrowed references cancel out. */
    method OwningMount(x: int) returns (o: Owner)
      ensures o == OwnerOf(nodes, root, x, MAX_DEPTH)
    {
      var current, depth := x, 0;
      while depth < MAX_DEPTH
        invariant depth <= MAX_DEPTH
        invariant OwnerOf(nodes, root, current, MAX_DEPTH - depth) == OwnerOf(nodes, root, x, MAX_DEPTH)
      {
        if current == root { return Mounted; }
        if current !in nodes || nodes[current].parent == 0 { return Nobody; }
        current, depth := nodes[current].parent, depth + 1;
      }
      return TooDeep;
    }

    /** vfs_link once both paths were looked up: t is the node that the old path leads to. */
    method Link(d: int, name: string, t: int, c: int) returns (status: Status)
      requires Sound(Abs()) && d in nodes && c !in nodes && c != 0
      requires t in nodes && nodes[t].target == 0
      modifies this
      ensures Sound(Abs())
      ensures d in old(kids) && status == LinkVerdict(old(Abs()), d, name, t)
      ensures status != Ok ==> Abs() == old(Abs())
      ensures status == Ok ==>
        d in old(first) && t != d && Abs() == JoinAlias(old(Abs()), d, c, Inode(File, name, d, t, 0, 1, 0))
    {
      hide Sound, Join, JoinAlias;
      KnownDir(Abs(), d);
      if nodes[t].kind == Dir { return IsDir; }
      if nodes[d].kind != Dir { return NotDir; }
      if !ValidName(name) { return InvalidArg; }
      var mt := OwningMount(t);
      if mt == Nobody { return NoEnt; }
      var md := OwningMount(d);
      if md == Nobody { return NoEnt; }
      if mt != md { return CrossDevice; }
      assert Open(Abs(), d) by { Owned(nodes, root, d); }
      var found;
      ghost var k;
      found, k := FindChild(d, name);
      if found != 0 { return Exists; }
      ghost var s := Abs();
      var n := Inode(File, name, d, t, 0, 1, 0);
      AddChild(d, c, n);
      JoinAliasForm(s, d, c, n, Abs());
      nodes := nodes[t := nodes[t].(links := nodes[t].links + 1)];
      JoinAliasSound(s, d, c, n, Abs());
      return Ok;
    }

    /** vfs_unlink, or vfs_rmdir if `dir`: the first entry of that name goes. */
    method Remove(d: int, name: string, dir: bool) returns (status: Status, ghost k: nat)
      requires Sound(Abs()) && d in nodes
      modifies this
      ensures Sound(Abs()) && d in old(kids) && k <= |old(kids)[d]|
      ensures old(nodes)[d].kind != Dir ==> status == NotDir
      ensures old(nodes)[d].kind == Dir && !ValidName(name) ==> status == InvalidArg
      ensures old(nodes)[d].kind == Dir && ValidName(name) ==>
        FirstNamed(old(Abs()), d, name, k) && status == Verdict(old(Abs()), d, k, dir)
      ensures status != Ok ==> Abs() == old(Abs())
      ensures status == Ok ==> k < |old(kids)[d]| && Removable(old(Abs()), d, k) && Abs() == Removed(old(Abs()), d, k)
    {
      hide Sound, Drop, Unlinked, Unaliased, Detach;
      k := 0;
      KnownDir(Abs(), d);
      if nodes[d].kind != Dir { return NotDir, 0; }
      if !ValidName(name) { return InvalidArg, 0; }
      var c;
      c, k := FindChild(d, name);
      if c == 0 { return NoEnt, k; }
      Listed(Abs(), d, k);
      EntryFacts(Abs(), d, k);
      ghost var s := Abs();
      var t := Resolves(nodes[c], c);
      Borrow(t);
      if dir && nodes[t].kind != Dir {
        UndoRaise(s, t);
        Release(t);
        return NotDir, k;
      }
      if !dir && nodes[t].kind == Dir {
        UndoRaise(s, t);
        Release(t);
        return IsDir, k;
      }
      if dir && first[c] != 0 {
        UndoRaise(s, t);
        Release(t);
        return NotEmpty, k;
      }
      CutEntry(c, t, d, k, s);
      Release(t);
      return Ok, k;
    }

    /** The entry is detached, an alias is freed, and the node loses a link. */
    method CutEntry(c: int, t: int, ghost d: int, ghost k: nat, ghost s: State)
      requires Sound(s) && d in s.nodes && d in s.kids && k < |s.kids[d]| && Removable(s, d, k)
      requires c == s.kids[d][k] && t == Resolves(s.nodes[c], c) && Sound(Abs()) && Abs() == Raise(s, t)
      modifies this
      ensures Sound(Abs()) && t in nodes && nodes[t].target == 0 && Abs() == Cut(s, d, k)
    {
      hide Sound, Drop, Detach;
      ghost var s0 := Abs();
      CutReady(s, d, k, s0);
      DetachChild(c, d, k);
      DetachAt(s0, d, k, t);
      if nodes[c].target != 0 { Forget(c); }
      if nodes[t].links > 0 { nodes := nodes[t := nodes[t].(links := nodes[t].links - 1)]; }
      CutSound(s, d, k, Abs());
    }
  }

  /** What unlink or rmdir answers for the k-th entry of d. */
  ghost function Verdict(s: State, d: int, k: nat, dir: bool): Status
    requires d in s.kids
  {
    if k >= |s.kids[d]| || s.kids[d][k] !in s.nodes then NoEnt
    else
      var c := s.kids[d][k];
      var t := Resolves(s.nodes[c], c);
      if t !in s.nodes then NoEnt
      else if dir && s.nodes[t].kind != Dir then NotDir
      else if !dir && s.nodes[t].kind == Dir then IsDir
      else if dir && c in s.first && s.first[c] != 0 then NotEmpty
      else Ok
  }

  /** Entry k of d can be taken out. */
  ghost predicate Removable(s: State, d: int, k: nat)
    requires d in s.kids && k < |s.kids[d]|
  {
    var c := s.kids[d][k];
    && d in s.nodes && d in s.first && c in s.nodes && c in s.next && c in s.kids && c != d && s.kids[c] == []
    && (var t := Resolves(s.nodes[c], c);
      t in s.nodes && t != d && s.nodes[t].links > 0 && s.nodes[t].target == 0 && (s.nodes[c].target != 0 ==> t != c))
  }

  /** The state with entry k of d gone, its node one link poorer and held by one more reference. */
  ghost function Cut(s: State, d: int, k: nat): State
    requires d in s.kids && k < |s.kids[d]| && Removable(s, d, k)
  {
    var c := s.kids[d][k];
    var s0 := Raise(s, Resolves(s.nodes[c], c));
    if s.nodes[c].target == 0 then Unlinked(s0, d, k) else Unaliased(s0, d, k)
  }

  ghost function Removed(s: State, d: int, k: nat): State
    requires d in s.kids && k < |s.kids[d]| && Removable(s, d, k)
  {
    var c := s.kids[d][k];
    Drop(Cut(s, d, k), Resolves(s.nodes[c], c))
  }

  lemma EntryFacts(s: State, d: int, k: nat)
    requires Sound(s) && d in s.nodes && d in s.kids && k < |s.kids[d]|
    ensures var c := s.kids[d][k]; c in s.nodes && c in s.first && var t := Resolves(s.nodes[c], c);
      t in s.nodes && t != d && s.nodes[t].target == 0 && s.nodes[t].links > 0
      && (s.first[c] == 0 || s.nodes[t].kind != Dir ==> Removable(s, d, k))
  {
    var c := s.kids[d][k];
    Listed(s, d, k);
    assert DirOk(s, c);
    if s.nodes[c].target != 0 {
      AliasShape(s, c);
    } else {
      OwnLinked(s, d, k);
    }
    ChainIn(s.next, s.first[c], s.kids[c]);
  }

  lemma UndoRaise(s: State, t: int)
    requires t in s.nodes && s.nodes[t].links > 0
    ensures Drop(Raise(s, t), t) == s
  {
    assert s.nodes[t := s.nodes[t].(refs := s.nodes[t].refs + 1)][t := s.nodes[t]] == s.nodes;
  }

  lemma CutReady(s: State, d: int, k: nat, s0: State)
    requires d in s.kids && k < |s.kids[d]| && Removable(s, d, k)
    requires s0 == Raise(s, Resolves(s.nodes[s.kids[d][k]], s.kids[d][k]))
    ensures d in s0.nodes && d in s0.kids && k < |s0.kids[d]| && s0.kids == s.kids && Removable(s0, d, k)
    ensures s0.nodes[s.kids[d][k]].target == s.nodes[s.kids[d][k]].target
  {
  }

  lemma DetachAt(s: State, d: int, k: nat, t: int)
    requires d in s.kids && k < |s.kids[d]| && Removable(s, d, k) && t == Resolves(s.nodes[s.kids[d][k]], s.kids[d][k])
    ensures var s1, c := Detach(s, d, k), s.kids[d][k];
      c in s1.nodes && t in s1.nodes && s1.nodes[c].target == s.nodes[c].target &&
        s1.nodes[t].links == s.nodes[t].links && s1.nodes[t].links > 0
    ensures var s1, c := Detach(s, d, k), s.kids[d][k];
      s.nodes[c].target == 0 ==>
        Unlinked(s, d, k) == s1.(nodes := s1.nodes[t := s1.nodes[t].(links := s1.nodes[t].links - 1)])
    ensures var s1, c := Detach(s, d, k), s.kids[d][k];
      s.nodes[c].target != 0 ==>
        Unaliased(s, d, k) ==
          Erase(s1, c).(nodes := Erase(s1, c).nodes[t := s1.nodes[t].(links := s1.nodes[t].links - 1)])
  {
  }

  lemma CutSound(s: State, d: int, k: nat, s': State)
    requires Sound(s) && d in s.nodes && d in s.kids && k < |s.kids[d]| && Removable(s, d, k) && s' == Cut(s, d, k)
    requires Sound(Raise(s, Resolves(s.nodes[s.kids[d][k]], s.kids[d][k])))
    ensures Sound(s')
    ensures var t := Resolves(s.nodes[s.kids[d][k]], s.kids[d][k]); t in s'.nodes && s'.nodes[t].target == 0
  {
    hide Sound, Detach, Erase;
    var c := s.kids[d][k];
    var t := Resolves(s.nodes[c], c);
    var s0 := Raise(s, t);
    CutReady(s, d, k, s0);
    DetachAt(s0, d, k, t);
    NonNull(s);
    if s.nodes[c].target == 0 { UnlinkedSound(s0, d, k, s'); } else { UnaliasedSound(s0, d, k, s'); }
  }

  lemma NonNull(s: State)
    requires Sound(s)
    ensures 0 !in s.nodes
  {
  }

  lemma KnownDir(s: State, d: int)
    requires Sound(s) && d in s.nodes
    ensures d in s.kids && d in s.first && 0 !in s.nodes
  {
  }

  lemma JoinAt(s: State, d: int, c: int, n: Inode)
    requires d in s.nodes && d in s.first && d in s.kids && c != d
    ensures var s' := Join(s, d, c, n);
      c in s'.nodes && s'.nodes[c] == n && forall m :: s'.(nodes := s'.nodes[c := m]) == Join(s, d, c, m)
  {
    var s' := Join(s, d, c, n);
    forall m ensures s'.(nodes := s'.nodes[c := m]) == Join(s, d, c, m) {
      assert s'.nodes[c := m] == s.nodes[c := m][d := s.nodes[d].(len := s.nodes[d].len + 1)];
    }
  }

  lemma JoinAliasForm(s: State, d: int, c: int, n: Inode, s1: State)
    requires d in s.nodes && d in s.first && d in s.kids && n.target in s.nodes && n.target != d && n.target != c
    requires s1 == Join(s, d, c, n)
    ensures n.target in s1.nodes && s1.nodes[n.target] == s.nodes[n.target]
    ensures JoinAlias(s, d, c, n) ==
      s1.(nodes := s1.nodes[n.target := s1.nodes[n.target].(links := s1.nodes[n.target].links + 1)])
  {
  }

  lemma Same(l: seq<int>, j: nat, k: nat)
    requires Distinct(l) && j < |l| && k < |l| && l[j] == l[k]
    ensures j == k
  {
  }

  /** Removing an entry takes one link from its node, which is released exactly when that was the last link and
      nobody refers to it; an alias goes with its entry; every other inode stays. */
  lemma RemovedFacts(s: State, d: int, k: nat)
    requires Sound(s) && d in s.kids && k < |s.kids[d]| && Removable(s, d, k)
    ensures var c := s.kids[d][k]; var t, s' := Resolves(s.nodes[c], c), Removed(s, d, k);
      && (t in s'.nodes <==> s.nodes[t].links > 1 || s.nodes[t].refs > 0)
      && (t in s'.nodes ==> s'.nodes[t].links == s.nodes[t].links - 1 && s'.nodes[t].refs == s.nodes[t].refs)
      && (forall x :: x in s.nodes && x != c && x != t ==>
        x in s'.nodes && s'.nodes[x].links == s.nodes[x].links && s'.nodes[x].refs == s.nodes[x].refs)
      && (s.nodes[c].target != 0 ==> c !in s'.nodes) && s'.nodes.Keys <= s.nodes.Keys
  {
    hide Sound, RemoveAt, RemoveNext;
  }
}
