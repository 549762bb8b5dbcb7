/** Path lookup: mounts, "..", symbolic links with a depth bound, and reference counts.

    A filesystem is whatever its operations answer; nodes and mounts are named by address, 0
    being the null pointer.  A path is the text before the terminating zero byte.
  */
module Vfs {
  const MAX_DEPTH := 40
  const TARGET_MAX := 1024
  const SLASH := '/'

  datatype Status = NoEnt | NotDir | InvalidArg | NotImplemented | LoopError | RangeError | Other(code: int)

  datatype Kind = Dir | Symlink | Plain

  datatype Res = Ok(node: int) | Err(status: Status)

  datatype Text = Read(bytes: string) | Unread(status: Status)

  datatype Mount = Mount(root: int, point: int, parent: int)

  /** What the operations of the nodes answer, who is mounted where, and how many links a node has. */
  datatype Fs = Fs(rootMount: int, mounts: map<int, Mount>, mountOf: int -> int, kind: int -> Kind,
                   canLookup: int -> bool, lookup: (int, string) -> Res,
                   canParent: int -> bool, parentOf: int -> Res,
                   canName: int -> bool, nameOf: int -> Text,
                   canRead: int -> bool, target: int -> Text, links: int -> nat)

  /** Mounts name each other and have roots; a successful lookup yields a node. */
  ghost predicate WellFormed(fs: Fs) {
    && fs.rootMount in fs.mounts && fs.rootMount != 0
    && (forall m :: m in fs.mounts ==>
      fs.mounts[m].root != 0 && (fs.mounts[m].parent == 0 || fs.mounts[m].parent in fs.mounts))
    && (forall n :: fs.mountOf(n) == 0 || fs.mountOf(n) in fs.mounts)
    && (forall d, name :: fs.lookup(d, name).Ok? ==> fs.lookup(d, name).node != 0)
  }

  function Root(fs: Fs): int
    requires fs.rootMount in fs.mounts
  {
    fs.mounts[fs.rootMount].root
  }

  // Components.

  function SegmentLen(p: string): (k: nat)
    ensures k <= |p| && (k < |p| ==> p[k] == SLASH) && forall i :: 0 <= i < k ==> p[i] != SLASH
  {
    if p == [] || p[0] == SLASH then 0 else 1 + SegmentLen(p[1..])
  }

  /** The pieces of a path between its slashes. */
  function Components(p: string): seq<string>
    decreases |p|
  {
    if p == [] then []
    else if p[0] == SLASH then Components(p[1..])
    else [p[..SegmentLen(p)]] + Components(p[SegmentLen(p)..])
  }

  lemma {:induction false} SegmentJoin(a: string, b: string)
    requires b == [] || b[0] == SLASH
    ensures SegmentLen(a + b) == SegmentLen(a)
  {
    if a == [] {
      assert a + b == b;
    } else if a[0] != SLASH {
      assert (a + b)[1..] == a[1..] + b;
      SegmentJoin(a[1..], b);
    }
  }

  /** Joining a link target and the rest of a path joins their components. */
  lemma {:induction false} ComponentsJoin(a: string, b: string)
    requires b == [] || b[0] == SLASH
    ensures Components(a + b) == Components(a) + Components(b)
    decreases |a|
  {
    if a == [] {
      assert a + b == b;
    } else if a[0] == SLASH {
      assert (a + b)[1..] == a[1..] + b;
      ComponentsJoin(a[1..], b);
    } else {
      var k := SegmentLen(a);
      SegmentJoin(a, b);
      var c := a + b;
      assert c != [] && c[0] == a[0] && c[..k] == a[..k] && c[k..] == a[k..] + b;
      ComponentsJoin(a[k..], b);
      assert Components(c) == [a[..k]] + Components(a[k..] + b);
      assert [a[..k]] + (Components(a[k..]) + Components(b)) == [a[..k]] + Components(a[k..]) + Components(b);
    }
  }

  // What a walk finds.

  /** The text before the first zero byte. */
  function CString(s: string): (r: string)
    ensures r <= s && '\0' !in r && (|r| < |s| ==> s[|r|] == '\0')
  {
    if s == [] || s[0] == '\0' then [] else [s[0]] + CString(s[1..])
  }

  /** clone_symlink_target. */
  function TargetOf(fs: Fs, link: int): Text {
    if !fs.canRead(link) then Unread(NotImplemented)
    else
      match fs.target(link)
      case Unread(st) => Unread(st)
      case Read(bytes) => if |bytes| == 0 || |bytes| >= TARGET_MAX then Unread(InvalidArg) else Read(CString(bytes))
  }

  /** cross_mount: a covered node gives way to the root of what is mounted on it. */
  function Cross(fs: Fs, n: int): int
    requires n != 0 && (fs.mountOf(n) == 0 || fs.mountOf(n) in fs.mounts)
  {
    var m := fs.mountOf(n);
    if m == 0 || n == fs.mounts[m].root then n else fs.mounts[m].root
  }

  function ParentNode(fs: Fs, n: int): Res {
    if !fs.canParent(n) then Err(NotImplemented)
    else
      match fs.parentOf(n)
      case Err(st) => Err(st)
      case Ok(p) => if p == 0 then Err(NoEnt) else Ok(p)
  }

  predicate IsMountRoot(fs: Fs, n: int)
    requires fs.mountOf(n) == 0 || fs.mountOf(n) in fs.mounts
  {
    var m := fs.mountOf(n);
    m != 0 && m != fs.rootMount && n == fs.mounts[m].root
  }

  function ParentMount(fs: Fs, m: int): int
    requires m in fs.mounts
  {
    if fs.mounts[m].parent == 0 then fs.rootMount else fs.mounts[m].parent
  }

  /** component_parent: the meaning of "..". */
  ghost function Up(fs: Fs, n: int): Res
    requires WellFormed(fs)
  {
    if n == Root(fs) then Err(NoEnt)
    else if IsMountRoot(fs, n) then
      var m := fs.mounts[fs.mountOf(n)];
      var above := fs.mounts[ParentMount(fs, fs.mountOf(n))].root;
      if m.point == 0 then Err(InvalidArg)
      else if m.point == above then Ok(above)
      else ParentNode(fs, m.point)
    else ParentNode(fs, n)
  }

  /** A node, and with it the last component if the walk was to stop before it. */
  datatype Outcome = Found(node: int, name: string) | Failed(status: Status)

  /** The fold over the components. */
  ghost function Resolve(fs: Fs, n: int, comps: seq<string>, stop: bool, depth: nat): Outcome
    requires WellFormed(fs) && n != 0 && depth <= MAX_DEPTH
    decreases MAX_DEPTH - depth, |comps|
  {
    if comps == [] then Found(n, "")
    else if fs.kind(n) != Dir || !fs.canLookup(n) then Failed(NotDir)
    else if stop && |comps| == 1 then Found(n, comps[0])
    else if comps[0] == "." then Resolve(fs, n, comps[1..], stop, depth)
    else if comps[0] == ".." then
      match Up(fs, n)
      case Err(st) => Failed(st)
      case Ok(p) => if p == 0 then Failed(NoEnt) else Resolve(fs, p, comps[1..], stop, depth)
    else
      match fs.lookup(n, comps[0])
      case Err(st) => Failed(st)
      case Ok(v) =>
        var next := Cross(fs, v);
        if fs.kind(next) == Symlink then Follow(fs, n, next, comps[1..], depth)
        else Resolve(fs, next, comps[1..], stop, depth)
  }

  /** resolve_symlink_component: the target and what is left of the path, walked from the start or from n. */
  ghost function Follow(fs: Fs, n: int, link: int, rest: seq<string>, depth: nat): Outcome
    requires WellFormed(fs) && n != 0 && depth <= MAX_DEPTH
    decreases MAX_DEPTH - depth, |rest|
  {
    if depth >= MAX_DEPTH then Failed(LoopError)
    else
      match TargetOf(fs, link)
      case Unread(st) => Failed(st)
      case Read(t) =>
        if t == [] && rest == [] then Failed(NoEnt)
        else
          var start := if t == [] || t[0] == SLASH then Root(fs) else n;
          Resolve(fs, Cross(fs, start), Components(t) + rest, false, depth + 1)
  }

  /** walk_path. */
  ghost function Walk(fs: Fs, cwd: int, base: int, path: string, stop: bool, depth: nat): Outcome
    requires (fs.rootMount != 0 ==> WellFormed(fs)) && depth <= MAX_DEPTH
  {
    if fs.rootMount == 0 || path == [] then Failed(NoEnt)
    else
      var start := if path[0] == SLASH then Root(fs) else if base != 0 then base else if cwd != 0 then cwd
        else Root(fs);
      Resolve(fs, Cross(fs, start), Components(path), stop, depth)
  }

  lemma ComponentsSkip(p: string, i: nat)
    requires i < |p| && p[i] == SLASH
    ensures Components(p[i..]) == Components(p[i + 1..])
  {
    assert p[i..][1..] == p[i + 1..];
  }

  lemma ComponentsTake(p: string, i: nat, k: nat)
    requires i < k <= |p| && (forall j :: i <= j < k ==> p[j] != SLASH) && (k < |p| ==> p[k] == SLASH)
    ensures Components(p[i..]) == [p[i..k]] + Components(p[k..])
  {
    var q := p[i..];
    var n := SegmentLen(q);
    assert q[..n] == p[i..k] && q[n..] == p[k..];
  }

  /** The reference counts.  `refs` holds one entry for each reference; `freed` collects the nodes whose
      free operation was called. */
  class Vnodes {
    const fs: Fs
    var refs: multiset<int>
    ghost var freed: set<int>

    constructor (f: Fs, r: multiset<int>)
      ensures fs == f && refs == r && freed == {}
    {
      fs, refs, freed := f, r, {};
    }

    /** vfs_vnode_borrow. */
    method Borrow(n: int)
      modifies this`refs
      ensures refs == old(refs) + if n != 0 then multiset{n} else multiset{}
    {
      if n != 0 { refs := refs + multiset{n}; }
    }

    /** vfs_vnode_release: the last reference to a node without links frees it. */
    method Release(n: int)
      modifies this
      ensures refs == if n != 0 then old(refs) - multiset{n} else old(refs)
      ensures freed ==
        if n != 0 && n in old(refs) && n !in refs && fs.links(n) == 0 then old(freed) + {n} else old(freed)
    {
      if n == 0 || n !in refs { return; }
      refs := refs - multiset{n};
      if n !in refs && fs.links(n) == 0 { freed := freed + {n}; }
    }

    /** Every node without links is held by a reference in r. */
    ghost predicate Kept(r: multiset<int>) {
      forall n :: fs.links(n) == 0 ==> n in r
    }

    /** What was freed meanwhile had neither a link nor a reference in r. */
    ghost predicate FreedOnly(before: set<int>, after: set<int>, r: multiset<int>) {
      before <= after && forall n :: n in after && n !in before ==> fs.links(n) == 0 && n !in r
    }

    lemma FreedNone(before: set<int>, r: multiset<int>)
      ensures FreedOnly(before, before, r)
    {
    }

    lemma FreedLess(before: set<int>, after: set<int>, r: multiset<int>, extra: multiset<int>)
      requires FreedOnly(before, after, r + extra)
      ensures FreedOnly(before, after, r)
    {
    }

    lemma FreedThen(before: set<int>, mid: set<int>, after: set<int>, r: multiset<int>)
      requires FreedOnly(before, mid, r) && FreedOnly(mid, after, r)
      ensures FreedOnly(before, after, r)
    {
    }

    /** So nothing is freed while every node without links is held. */
    lemma FreedKept(before: set<int>, after: set<int>, r: multiset<int>)
      requires FreedOnly(before, after, r) && Kept(r)
      ensures after == before
    {
      forall n | n in after ensures n in before {
        assert n in before || fs.links(n) == 0;
      }
    }

    /** Giving up one reference beyond those in `rest`. */
    method GiveUp(n: int, ghost rest: multiset<int>)
      requires n != 0 && refs == rest + multiset{n}
      modifies this
      ensures refs == rest && FreedOnly(old(freed), freed, rest)
    {
      Release(n);
      assert rest + multiset{n} - multiset{n} == rest;
    }

    /** cross_mount, which moves the reference along. */
    method CrossMount(n: int, ghost r: multiset<int>) returns (c: int)
      requires WellFormed(fs) && n != 0 && r + multiset{n} <= refs
      modifies this
      ensures c == Cross(fs, n) && refs == old(refs) - multiset{n} + multiset{c} && FreedOnly(old(freed), freed, r)
    {
      FreedNone(freed, r);
      var m := fs.mountOf(n);
      if m == 0 || n == fs.mounts[m].root { return n; }
      c := fs.mounts[m].root;
      Borrow(c);
      Release(n);
    }

    /** The parent operation of a node, which borrows what it returns. */
    method ParentOp(n: int) returns (res: Res)
      modifies this`refs
      ensures res == ParentNode(fs, n) && refs == old(refs) + if res.Ok? then multiset{res.node} else multiset{}
    {
      if !fs.canParent(n) { return Err(NotImplemented); }
      res := fs.parentOf(n);
      if res.Err? { return; }
      if res.node == 0 { return Err(NoEnt); }
      Borrow(res.node);
    }

    /** The node that ".." leads to, borrowed. */
    method FindParent(n: int) returns (res: Res)
      requires WellFormed(fs)
      modifies this`refs
      ensures res == Up(fs, n) && (res.Ok? ==> res.node != 0)
      ensures refs == old(refs) + if res.Ok? then multiset{res.node} else multiset{}
    {
      if n == Root(fs) { return Err(NoEnt); }
      if IsMountRoot(fs, n) {
        var m := fs.mountOf(n);
        var above := fs.mounts[ParentMount(fs, m)].root;
        if fs.mounts[m].point == 0 { return Err(InvalidArg); }
        if fs.mounts[m].point == above {
          Borrow(above);
          return Ok(above);
        }
        res := ParentOp(fs.mounts[m].point);
      } else {
        res := ParentOp(n);
      }
    }

    /** component_parent. */
    method ComponentParent(n: int, ghost r: multiset<int>) returns (res: Res)
      requires WellFormed(fs) && n != 0 && refs == r + multiset{n}
      modifies this
      ensures res == Up(fs, n) && (res.Ok? ==> res.node != 0)
      ensures refs == r + multiset{if res.Ok? then res.node else n} && FreedOnly(old(freed), freed, r)
    {
      FreedNone(freed, r);
      res := FindParent(n);
      if res.Ok? { Release(n); }
    }

    /** The lookup operation of a directory, which borrows what it returns. */
    method LookupOp(n: int, name: string) returns (res: Res)
      modifies this`refs
      ensures res == fs.lookup(n, name)
      ensures refs == old(refs) + if res.Ok? && res.node != 0 then multiset{res.node} else multiset{}
    {
      res := fs.lookup(n, name);
      if res.Ok? { Borrow(res.node); }
    }

    /** resolve_symlink_component. */
    method ResolveSymlink(cwd: int, base: int, link: int, remaining: string, depth: nat) returns (r: Outcome)
      requires WellFormed(fs) && base != 0 && depth <= MAX_DEPTH
      requires '\0' !in remaining && (remaining != [] ==> remaining[0] != SLASH)
      modifies this
      ensures r == Follow(fs, base, link, Components(remaining), depth)
      ensures refs == old(refs) + (if r.Found? then multiset{r.node} else multiset{})
      ensures FreedOnly(old(freed), freed, old(refs))
      decreases MAX_DEPTH - depth, 0
    {
      hide Resolve, Components, CString, FreedOnly;
      FreedNone(freed, refs);
      if depth >= MAX_DEPTH { return Failed(LoopError); }
      var t := TargetOf(fs, link);
      if t.Unread? { return Failed(t.status); }
      var linked := if remaining == [] then t.bytes else t.bytes + ([SLASH] + remaining);
      LinkedComponents(t.bytes, remaining, linked);
      r := WalkPath(cwd, if linked != [] && linked[0] == SLASH then 0 else base, linked, false, depth + 1);
    }

    /** One component that is not the last of a walk to the parent. */
    method Step(cwd: int, n: int, comp: string, remaining: string,
                ghost stop: bool, depth: nat, ghost r0: multiset<int>)
      returns (done: bool, r: Outcome, next: int)
      requires WellFormed(fs) && n != 0 && depth <= MAX_DEPTH && refs == r0 + multiset{n}
      requires fs.kind(n) == Dir && fs.canLookup(n) && !(stop && Components(remaining) == [])
      requires '\0' !in remaining && (remaining != [] ==> remaining[0] != SLASH)
      modifies this
      ensures FreedOnly(old(freed), freed, r0)
      ensures done ==> r == Resolve(fs, n, [comp] + Components(remaining), stop, depth)
      ensures done ==> refs == r0 + if r.Found? then multiset{r.node} else multiset{}
      ensures !done ==> next != 0 && refs == r0 + multiset{next}
      ensures !done ==> var rest := Components(remaining);
        Resolve(fs, n, [comp] + rest, stop, depth) == Resolve(fs, next, rest, stop, depth)
      decreases MAX_DEPTH - depth, 3
    {
      hide Components, Resolve, Follow, Up, FreedOnly;
      FreedNone(freed, r0);
      ResolveStep(fs, n, comp, Components(remaining), stop, depth);
      if comp == "." { return false, Failed(NoEnt), n; }
      if comp == ".." {
        var up := ComponentParent(n, r0);
        if up.Err? {
          ghost var mid := freed;
          GiveUp(n, r0);
          FreedThen(old(freed), mid, freed, r0);
          return true, Failed(up.status), 0;
        }
        return false, Failed(NoEnt), up.node;
      }
      done, r, next := StepName(cwd, n, comp, remaining, depth, r0);
    }

    /** A component that names an entry of directory n. */
    method StepName(cwd: int, n: int, comp: string, remaining: string, depth: nat, ghost r0: multiset<int>)
      returns (done: bool, r: Outcome, next: int)
      requires WellFormed(fs) && n != 0 && depth <= MAX_DEPTH && refs == r0 + multiset{n}
      requires '\0' !in remaining && (remaining != [] ==> remaining[0] != SLASH)
      modifies this
      ensures FreedOnly(old(freed), freed, r0)
      ensures done ==> refs == r0 + if r.Found? then multiset{r.node} else multiset{}
      ensures !done ==> next != 0 && refs == r0 + multiset{next}
      ensures fs.lookup(n, comp).Err? ==> done && r == Failed(fs.lookup(n, comp).status)
      ensures fs.lookup(n, comp).Ok? ==> var v := Cross(fs, fs.lookup(n, comp).node);
        if fs.kind(v) == Symlink then done && r == Follow(fs, n, v, Components(remaining), depth)
          else !done && next == v
      decreases MAX_DEPTH - depth, 2
    {
      hide Components, Follow, FreedOnly;
      var found := LookupOp(n, comp);
      if found.Err? {
        GiveUp(n, r0);
        return true, Failed(found.status), 0;
      }
      var v := CrossMount(found.node, r0 + multiset{n});
      ghost var mid := freed;
      FreedLess(old(freed), mid, r0, multiset{n});
      assert refs == r0 + multiset{n} + multiset{v};
      if fs.kind(v) == Symlink {
        r := StepLink(cwd, n, v, remaining, depth, r0);
        FreedThen(old(freed), mid, freed, r0);
        return true, r, 0;
      }
      assert refs == r0 + multiset{v} + multiset{n};
      GiveUp(n, r0 + multiset{v});
      FreedLess(mid, freed, r0, multiset{v});
      FreedThen(old(freed), mid, freed, r0);
      return false, Failed(NoEnt), v;
    }

    /** A symbolic link on the way, and the two references given up after it. */
    method StepLink(cwd: int, n: int, link: int, remaining: string, depth: nat, ghost r0: multiset<int>)
      returns (r: Outcome)
      requires WellFormed(fs) && n != 0 && link != 0 && depth <= MAX_DEPTH && refs == r0 + multiset{n} + multiset{link}
      requires '\0' !in remaining && (remaining != [] ==> remaining[0] != SLASH)
      modifies this
      ensures r == Follow(fs, n, link, Components(remaining), depth)
      ensures refs == r0 + (if r.Found? then multiset{r.node} else multiset{}) && FreedOnly(old(freed), freed, r0)
      decreases MAX_DEPTH - depth, 1
    {
      hide Components, Follow, WellFormed, FreedOnly;
      assert r0 + (multiset{n} + multiset{link}) == refs;
      r := ResolveSymlink(cwd, n, link, remaining, depth);
      ghost var extra, f1 := if r.Found? then multiset{r.node} else multiset{}, freed;
      FreedLess(old(freed), f1, r0, multiset{n} + multiset{link});
      Swapped(r0, multiset{n}, multiset{link}, extra);
      GiveUp(link, r0 + (multiset{n} + extra));
      ghost var f2 := freed;
      FreedLess(f1, f2, r0, multiset{n} + extra);
      assert r0 + (multiset{n} + extra) == r0 + extra + multiset{n};
      GiveUp(n, r0 + extra);
      FreedLess(f2, freed, r0, extra);
      FreedThen(old(freed), f1, f2, r0);
      FreedThen(old(freed), f2, freed, r0);
    }

    /** The loop of walk_path. */
    method WalkFrom(cwd: int, start: int, path: string, from: nat, stop: bool, depth: nat, ghost r0: multiset<int>)
      returns (r: Outcome)
      requires WellFormed(fs) && start != 0 && depth <= MAX_DEPTH && refs == r0 + multiset{start}
      requires from <= |path| && '\0' !in path && (from < |path| ==> path[from] != SLASH)
      modifies this
      ensures r == Resolve(fs, start, Components(path[from..]), stop, depth)
      ensures refs == r0 + (if r.Found? then multiset{r.node} else multiset{}) && FreedOnly(old(freed), freed, r0)
      decreases MAX_DEPTH - depth, 4
    {
      hide Resolve, Components, WellFormed, FreedOnly;
      FreedNone(freed, r0);
      var current, cursor := start, from;
      ghost var whole := Resolve(fs, start, Components(path[from..]), stop, depth);
      while cursor < |path|
        invariant cursor <= |path| && current != 0 && refs == r0 + multiset{current}
        invariant FreedOnly(old(freed), freed, r0)
        invariant cursor < |path| ==> path[cursor] != SLASH
        invariant whole == Resolve(fs, current, Components(path[cursor..]), stop, depth)
        decreases |path| - cursor
      {
        var end := SegmentEnd(path, cursor);
        var next := SkipSlashes(path, end);
        ComponentsTake(path, cursor, end);
        NonEmpty(path[next..]);
        if fs.kind(current) != Dir || !fs.canLookup(current) {
          ResolveHead(fs, current, path[cursor..end], Components(path[next..]), stop, depth);
          ghost var mid := freed;
          GiveUp(current, r0);
          FreedThen(old(freed), mid, freed, r0);
          return Failed(NotDir);
        }
        if stop && next == |path| {
          ResolveHead(fs, current, path[cursor..end], Components(path[next..]), stop, depth);
          return Found(current, path[cursor..end]);
        }
        ghost var before := freed;
        var done, result, n := Step(cwd, current, path[cursor..end], path[next..], stop, depth, r0);
        FreedThen(old(freed), before, freed, r0);
        if done { return result; }
        current, cursor := n, next;
      }
      NonEmpty(path[cursor..]);
      ResolveEnd(fs, current, Components(path[cursor..]), stop, depth);
      return Found(current, "");
    }

    /** walk_path. */
    method WalkPath(cwd: int, base: int, path: string, stop: bool, depth: nat) returns (r: Outcome)
      requires (fs.rootMount != 0 ==> WellFormed(fs)) && depth <= MAX_DEPTH && '\0' !in path
      modifies this
      ensures r == Walk(fs, cwd, base, path, stop, depth)
      ensures refs == old(refs) + (if r.Found? then multiset{r.node} else multiset{})
      ensures FreedOnly(old(freed), freed, old(refs)) && (Kept(old(refs)) ==> freed == old(freed))
      decreases MAX_DEPTH - depth, 5
    {
      hide Resolve, Components, FreedOnly, Kept;
      ghost var r0 := refs;
      FreedNone(freed, r0);
      if fs.rootMount == 0 { return Failed(NoEnt); }
      if path == [] { return Failed(NoEnt); }
      var start := base;
      if path[0] != SLASH && base == 0 { start := if cwd == 0 then Root(fs) else cwd; }
      if path[0] == SLASH { start := Root(fs); }
      Borrow(start);
      var current := CrossMount(start, r0);
      ghost var mid := freed;
      assert path[0..] == path;
      var cursor := SkipSlashes(path, 0);
      r := WalkFrom(cwd, current, path, cursor, stop, depth, r0);
      FreedThen(old(freed), mid, freed, r0);
      if Kept(r0) { FreedKept(old(freed), freed, r0); }
    }
  }

  lemma Swapped(a: multiset<int>, b: multiset<int>, c: multiset<int>, d: multiset<int>)
    ensures a + b + c + d == a + (b + d) + c
  {
  }

  lemma NonEmpty(p: string)
    ensures (p == [] ==> Components(p) == []) && (p != [] && p[0] != SLASH ==> Components(p) != [])
  {
  }

  lemma ResolveStep(fs: Fs, n: int, comp: string, rest: seq<string>, stop: bool, depth: nat)
    requires WellFormed(fs) && n != 0 && depth <= MAX_DEPTH && fs.kind(n) == Dir && fs.canLookup(n)
    requires !(stop && rest == [])
    ensures comp == "." ==> Resolve(fs, n, [comp] + rest, stop, depth) == Resolve(fs, n, rest, stop, depth)
    ensures comp == ".." && Up(fs, n).Err? ==> Resolve(fs, n, [comp] + rest, stop, depth) == Failed(Up(fs, n).status)
    ensures comp == ".." && Up(fs, n).Ok? && Up(fs, n).node != 0 ==>
      Resolve(fs, n, [comp] + rest, stop, depth) == Resolve(fs, Up(fs, n).node, rest, stop, depth)
    ensures comp != "." && comp != ".." && fs.lookup(n, comp).Err? ==>
      Resolve(fs, n, [comp] + rest, stop, depth) == Failed(fs.lookup(n, comp).status)
    ensures comp != "." && comp != ".." && fs.lookup(n, comp).Ok? ==> var v := Cross(fs, fs.lookup(n, comp).node);
      v != 0 && Resolve(fs, n, [comp] + rest, stop, depth) ==
        if fs.kind(v) == Symlink then Follow(fs, n, v, rest, depth) else Resolve(fs, v, rest, stop, depth)
  {
    var comps := [comp] + rest;
    assert comps[0] == comp && comps[1..] == rest;
  }

  lemma ResolveEnd(fs: Fs, n: int, comps: seq<string>, stop: bool, depth: nat)
    requires WellFormed(fs) && n != 0 && depth <= MAX_DEPTH && comps == []
    ensures Resolve(fs, n, comps, stop, depth) == Found(n, "")
  {
  }

  /** The two ways a walk ends before its last component is looked up. */
  lemma ResolveHead(fs: Fs, n: int, comp: string, rest: seq<string>, stop: bool, depth: nat)
    requires WellFormed(fs) && n != 0 && depth <= MAX_DEPTH
    ensures fs.kind(n) != Dir || !fs.canLookup(n) ==> Resolve(fs, n, [comp] + rest, stop, depth) == Failed(NotDir)
    ensures fs.kind(n) == Dir && fs.canLookup(n) && stop && rest == [] ==>
      Resolve(fs, n, [comp] + rest, stop, depth) == Found(n, comp)
  {
  }

  lemma LinkedComponents(t: string, rest: string, linked: string)
    requires linked == if rest == [] then t else t + ([SLASH] + rest)
    ensures Components(linked) == Components(t) + Components(rest)
    ensures rest != [] && rest[0] != SLASH ==> Components(rest) != []
    ensures rest == [] ==> Components(rest) == []
  {
    if rest != [] {
      ComponentsJoin(t, [SLASH] + rest);
      ComponentsSkip([SLASH] + rest, 0);
      assert ([SLASH] + rest)[0..] == [SLASH] + rest && ([SLASH] + rest)[1..] == rest;
    }
  }

  method SkipSlashes(path: string, from: nat) returns (k: nat)
    requires from <= |path|
    ensures from <= k <= |path| && (k < |path| ==> path[k] != SLASH)
    ensures Components(path[k..]) == Components(path[from..])
  {
    k := from;
    while k < |path| && path[k] == SLASH
      invariant from <= k <= |path| && Components(path[k..]) == Components(path[from..])
    {
      ComponentsSkip(path, k);
      k := k + 1;
    }
  }

  method SegmentEnd(path: string, from: nat) returns (k: nat)
    requires from < |path| && path[from] != SLASH
    ensures from < k <= |path| && (k < |path| ==> path[k] == SLASH) && forall j :: from <= j < k ==> path[j] != SLASH
  {
    k := from;
    while k < |path| && path[k] != SLASH
      invariant from <= k <= |path| && forall j :: from <= j < k ==> path[j] != SLASH
    {
      k := k + 1;
    }
  }
}
