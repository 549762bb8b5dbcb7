/** Changing directory: wherever a path leads, through "..", symbolic links and mounts, the path that
    vfs_getcwd writes leads back there. */
module VfsChdir {
  import opened Vfs
  import opened VfsCwd

  /** Only directories are covered by a mount. */
  ghost predicate DirMounts(fs: Fs)
    requires WellFormed(fs)
  {
    forall v :: v != 0 && Cross(fs, v) != v ==> fs.kind(v) == Dir
  }

  /** A path of names leads from the root to d. */
  ghost predicate Reached(fs: Fs, d: int)
    requires WellFormed(fs)
  {
    exists names :: Reach(fs, names) == Ok(d)
  }

  /** A component as it comes out of a path. */
  predicate Piece(s: string) {
    s != [] && SLASH !in s && '\0' !in s
  }

  ghost predicate Pieces(comps: seq<string>) {
    forall k :: 0 <= k < |comps| ==> Piece(comps[k])
  }

  lemma {:induction false} ComponentsPieces(p: string)
    requires '\0' !in p
    ensures Pieces(Components(p))
    decreases |p|
  {
    if p != [] {
      if p[0] == SLASH {
        ComponentsPieces(p[1..]);
      } else {
        ComponentsPieces(p[SegmentLen(p)..]);
      }
    }
  }

  /** The last step to a reached directory other than the root. */
  lemma LastStep(fs: Fs, d: int) returns (p: int, name: string, v: int)
    requires Coherent(fs) && Reached(fs, d) && d != Root(fs)
    ensures p != 0 && v != 0 && Reached(fs, p) && fs.kind(p) == Dir && ValidName(name)
    ensures fs.lookup(p, name) == Ok(v) && fs.kind(v) == Dir && d == Cross(fs, v)
  {
    var names :| Reach(fs, names) == Ok(d);
    var init := names[..|names| - 1];
    name := names[|names| - 1];
    p := Reach(fs, init).node;
    v := fs.lookup(p, name).node;
    assert Reach(fs, init) == Ok(p);
  }

  /** No mount hides a reached directory, and ".." leads from it to another one. */
  lemma ReachedFacts(fs: Fs, d: int)
    requires Coherent(fs) && Reached(fs, d)
    ensures d != 0 && Cross(fs, d) == d
    ensures d != Root(fs) ==> Up(fs, d).Ok? && Up(fs, d).node != 0 && Reached(fs, Up(fs, d).node)
  {
    if d != Root(fs) {
      var p, name, v := LastStep(fs, d);
      assert Agrees(fs, p, name, v);
      assert Up(fs, d) == Ok(p);
    }
  }

  lemma ReachFurther(fs: Fs, d: int, name: string)
    requires Coherent(fs) && Reached(fs, d) && d != 0 && fs.kind(d) == Dir && fs.canLookup(d) && ValidName(name)
    requires fs.lookup(d, name).Ok? && fs.kind(fs.lookup(d, name).node) == Dir
    ensures fs.lookup(d, name).node != 0 && Reached(fs, Cross(fs, fs.lookup(d, name).node))
  {
    var names :| Reach(fs, names) == Ok(d);
    assert (names + [name])[..|names|] == names;
    assert Reach(fs, names + [name]) == Ok(Cross(fs, fs.lookup(d, name).node));
  }

  /** The directories that a walk finds from a reached one are reached. */
  lemma {:induction false} ResolveReaches(fs: Fs, n: int, comps: seq<string>, stop: bool, depth: nat)
    requires Coherent(fs) && DirMounts(fs) && n != 0 && depth <= MAX_DEPTH && Pieces(comps)
    requires fs.kind(n) == Dir ==> Reached(fs, n)
    ensures var r := Resolve(fs, n, comps, stop, depth); r.Found? && fs.kind(r.node) == Dir ==> Reached(fs, r.node)
    decreases MAX_DEPTH - depth, |comps|
  {
    hide Reached, Coherent, DirMounts, Cross, Up;
    if comps != [] && fs.kind(n) == Dir && fs.canLookup(n) && !(stop && |comps| == 1) {
      var comp, rest := comps[0], comps[1..];
      assert Piece(comp);
      WellOf(fs);
      ReachedFacts(fs, n);
      if comp == "." {
        ResolveReaches(fs, n, rest, stop, depth);
      } else if comp == ".." {
        if Up(fs, n).Ok? && Up(fs, n).node != 0 {
          if n == Root(fs) { RootUp(fs); }
          ResolveReaches(fs, Up(fs, n).node, rest, stop, depth);
        }
      } else if fs.lookup(n, comp).Ok? {
        var next := Cross(fs, fs.lookup(n, comp).node);
        LookupReaches(fs, n, comp);
        if fs.kind(next) == Symlink {
          FollowReaches(fs, n, next, rest, depth);
        } else {
          ResolveReaches(fs, next, rest, stop, depth);
        }
      }
    }
  }

  lemma {:induction false} FollowReaches(fs: Fs, n: int, link: int, rest: seq<string>, depth: nat)
    requires Coherent(fs) && DirMounts(fs) && n != 0 && depth <= MAX_DEPTH && Pieces(rest) && Reached(fs, n)
    ensures var r := Follow(fs, n, link, rest, depth); r.Found? && fs.kind(r.node) == Dir ==> Reached(fs, r.node)
    decreases MAX_DEPTH - depth, |rest|
  {
    hide Reached, Coherent, DirMounts;
    WellOf(fs);
    if depth < MAX_DEPTH && TargetOf(fs, link).Read? {
      var t := TargetOf(fs, link).bytes;
      ComponentsPieces(t);
      var start := if t == [] || t[0] == SLASH then Root(fs) else n;
      assert Reached(fs, start) by { RootReached(fs); }
      ReachedFacts(fs, start);
      ResolveReaches(fs, start, Components(t) + rest, false, depth + 1);
    }
  }

  lemma WellOf(fs: Fs)
    requires Coherent(fs)
    ensures WellFormed(fs)
  {
  }

  lemma RootReached(fs: Fs)
    requires WellFormed(fs)
    ensures Reached(fs, Root(fs))
  {
    assert Reach(fs, []) == Ok(Root(fs));
  }

  lemma RootUp(fs: Fs)
    requires WellFormed(fs)
    ensures Up(fs, Root(fs)).Err?
  {
  }

  lemma LookupReaches(fs: Fs, n: int, comp: string)
    requires Coherent(fs) && DirMounts(fs) && Reached(fs, n) && n != 0 && fs.kind(n) == Dir && fs.canLookup(n)
    requires Piece(comp) && comp != "." && comp != ".." && fs.lookup(n, comp).Ok?
    ensures var v := fs.lookup(n, comp).node; v != 0 && Cross(fs, v) != 0
    ensures var next := Cross(fs, fs.lookup(n, comp).node); fs.kind(next) == Dir ==> Reached(fs, next)
  {
    hide Reached;
    var v := fs.lookup(n, comp).node;
    if fs.kind(v) == Dir { ReachFurther(fs, n, comp); }
  }

  /** Where a walk may start: at the root, or in a directory that a path of names leads to. */
  ghost predicate Base(fs: Fs, d: int)
    requires WellFormed(fs)
  {
    d == 0 || Reached(fs, d)
  }

  lemma WalkReaches(fs: Fs, cwd: int, base: int, path: string, stop: bool, depth: nat)
    requires Coherent(fs) && DirMounts(fs) && Base(fs, cwd) && Base(fs, base) && '\0' !in path && depth <= MAX_DEPTH
    ensures var r := Walk(fs, cwd, base, path, stop, depth); r.Found? && fs.kind(r.node) == Dir ==> Reached(fs, r.node)
  {
    hide Reached;
    if path != [] {
      var here := if cwd != 0 then cwd else Root(fs);
      var start := if path[0] == SLASH then Root(fs) else if base != 0 then base else here;
      assert Reached(fs, start) by { RootReached(fs); }
      ReachedFacts(fs, start);
      ComponentsPieces(path);
      ResolveReaches(fs, start, Components(path), stop, depth);
    }
  }

  /** chdir: the current directory becomes the directory that the path leads to, if there is one. */
  ghost function Chdir(fs: Fs, cwd: int, path: string): int
    requires WellFormed(fs)
  {
    var r := Walk(fs, cwd, 0, path, false, 0);
    if r.Found? && fs.kind(r.node) == Dir then r.node else cwd
  }

  ghost function Chdirs(fs: Fs, cwd: int, paths: seq<string>): int
    requires WellFormed(fs)
    decreases |paths|
  {
    if paths == [] then cwd else Chdirs(fs, Chdir(fs, cwd, paths[0]), paths[1..])
  }

  lemma {:induction false} ChdirsReach(fs: Fs, cwd: int, paths: seq<string>)
    requires Coherent(fs) && DirMounts(fs) && Base(fs, cwd) && forall k :: 0 <= k < |paths| ==> '\0' !in paths[k]
    ensures Base(fs, Chdirs(fs, cwd, paths))
    decreases |paths|
  {
    hide Reached, Walk;
    if paths != [] {
      WalkReaches(fs, cwd, 0, paths[0], false, 0);
      ChdirsReach(fs, Chdir(fs, cwd, paths[0]), paths[1..]);
    }
  }

  /** After any calls of chdir, with any paths, the text that vfs_getcwd writes looks up to the current
      directory from anywhere; and it writes one exactly if the path of that directory fits. */
  lemma ChdirRoundTrip(fs: Fs, paths: seq<string>, len: nat, cwd: int, base: int) returns (names: seq<string>)
    requires Coherent(fs) && DirMounts(fs) && len > 0 && forall k :: 0 <= k < |paths| ==> '\0' !in paths[k]
    ensures var d := Chdirs(fs, 0, paths); var here := if d == 0 then Root(fs) else d;
      var got := Climb(fs, here, "", len, 0); var text := if names == [] then [SLASH] else PathText(names);
      && Reach(fs, names) == Ok(here) && (got.Read? <==> |names| < TARGET_MAX && |text| + 1 <= len)
      && (got.Read? ==> got.bytes == text) && Walk(fs, cwd, base, text, false, 0) == Found(here, "")
  {
    hide Climb, Walk, Chdirs;
    ChdirsReach(fs, 0, paths);
    var d := Chdirs(fs, 0, paths);
    var here := if d == 0 then Root(fs) else d;
    RootReached(fs);
    names :| Reach(fs, names) == Ok(here);
    RoundTrip(fs, names, here, len, cwd, base);
  }
}
