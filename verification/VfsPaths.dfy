/** What a path means: relative paths, "." and "..", mount points, and symbolic links replaced by their text. */
module VfsPaths {
  import opened Vfs
  import opened VfsCwd
  import opened VfsChdir

  /** The pieces of two texts with a slash between them. */
  lemma SlashJoin(a: string, b: string)
    ensures Components(a + ([SLASH] + b)) == Components(a) + Components(b)
  {
    ComponentsJoin(a, [SLASH] + b);
    ComponentsSkip([SLASH] + b, 0);
    assert ([SLASH] + b)[0..] == [SLASH] + b && ([SLASH] + b)[1..] == b;
  }

  /** Only an absolute path starts at the root. */
  lemma Absolute(fs: Fs, cwd: int, base: int, path: string, stop: bool, depth: nat)
    requires (fs.rootMount != 0 ==> WellFormed(fs)) && depth <= MAX_DEPTH
    ensures path != [] && path[0] == SLASH ==>
      Walk(fs, cwd, base, path, stop, depth) == Walk(fs, 0, 0, path, stop, depth)
    ensures path != [] ==> Walk(fs, 0, 0, path, stop, depth) == Walk(fs, cwd, base, [SLASH] + path, stop, depth)
  {
    if path != [] && path[0] != SLASH {
      SlashJoin([], path);
      assert [] + ([SLASH] + path) == [SLASH] + path;
    } else if path != [] {
      ComponentsSkip([SLASH] + path, 0);
      assert ([SLASH] + path)[0..] == [SLASH] + path && ([SLASH] + path)[1..] == path;
    }
  }

  /** A walk from the root along the names of a directory and on. */
  lemma WalkThrough(fs: Fs, cwd: int, base: int, names: seq<string>, d: int, rest: string, stop: bool, depth: nat)
    requires Coherent(fs) && Reach(fs, names) == Ok(d) && depth <= MAX_DEPTH && (stop ==> Components(rest) != [])
    ensures d != 0 && Cross(fs, d) == d
    ensures Walk(fs, cwd, base, PathText(names) + ([SLASH] + rest), stop, depth) ==
      Resolve(fs, d, Components(rest), stop, depth)
  {
    ReachFacts(fs, names, d);
    ReachedFacts(fs, d);
    TextComponents(names);
    SlashJoin(PathText(names), rest);
    ReachResolve(fs, names, d, Components(rest), stop, depth);
  }

  /** A path that does not start with a slash means the same as that path behind the path of the directory
      it is looked up in, be it the one given to the call or the current one. */
  lemma RelativeIsAbsolute(fs: Fs, cwd: int, base: int, names: seq<string>, path: string, stop: bool, depth: nat)
    requires Coherent(fs) && path != [] && path[0] != SLASH && depth <= MAX_DEPTH
    requires Reach(fs, names) == Ok(if base != 0 then base else cwd)
    ensures Walk(fs, cwd, base, path, stop, depth) ==
      Walk(fs, 0, 0, PathText(names) + ([SLASH] + path), stop, depth)
  {
    var d := if base != 0 then base else cwd;
    NonEmpty(path);
    WalkThrough(fs, 0, 0, names, d, path, stop, depth);
  }

  /** chdir goes to the directory of a path, and from there on as the path of both together would. */
  lemma ChdirFollows(fs: Fs, cwd: int, names: seq<string>, d: int, path: string)
    requires Coherent(fs) && Reach(fs, names) == Ok(d) && fs.kind(d) == Dir
    ensures Chdir(fs, cwd, if names == [] then [SLASH] else PathText(names)) == d
    ensures path != [] && path[0] != SLASH ==>
      var r := Walk(fs, cwd, 0, PathText(names) + ([SLASH] + path), false, 0);
      Chdir(fs, d, path) == if r.Found? && fs.kind(r.node) == Dir then r.node else d
  {
    RoundTrip(fs, names, d, 1, cwd, 0);
    if path != [] && path[0] != SLASH {
      ReachFacts(fs, names, d);
      RelativeIsAbsolute(fs, d, 0, names, path, false, 0);
      TextComponents(names);
      Absolute(fs, cwd, 0, PathText(names) + ([SLASH] + path), false, 0);
    }
  }

  /** A walk that is to stop before the last component finds the directory and leaves the name. */
  lemma ParentOf(fs: Fs, cwd: int, base: int, names: seq<string>, d: int, name: string, depth: nat)
    requires Coherent(fs) && Reach(fs, names) == Ok(d) && fs.kind(d) == Dir && fs.canLookup(d)
    requires ValidName(name) && depth <= MAX_DEPTH
    ensures Walk(fs, cwd, base, PathText(names) + ([SLASH] + name), true, depth) == Found(d, name)
  {
    OneName(name);
    WalkThrough(fs, cwd, base, names, d, name, true, depth);
    ResolveHead(fs, d, name, [], true, depth);
    assert [name] + [] == [name];
  }

  lemma OneName(name: string)
    requires name != [] && SLASH !in name
    ensures Components(name) == [name]
  {
    ComponentsTake(name, 0, |name|);
    assert name[0..] == name && name[0..|name|] == name && name[|name|..] == [];
  }

  lemma DotComponents(rest: string)
    ensures Components("." + ([SLASH] + rest)) == ["."] + Components(rest)
    ensures Components(".." + ([SLASH] + rest)) == [".."] + Components(rest)
  {
    hide Components;
    SlashJoin(".", rest);
    SlashJoin("..", rest);
    OneName(".");
    OneName("..");
  }

  /** In a directory "." changes nothing, and ".." undoes a name, also the name of a mount point. */
  lemma Dots(fs: Fs, cwd: int, base: int, names: seq<string>, d: int, rest: string, depth: nat)
    requires Coherent(fs) && Reach(fs, names) == Ok(d) && fs.kind(d) == Dir && fs.canLookup(d) && depth <= MAX_DEPTH
    ensures Walk(fs, cwd, base, PathText(names) + ([SLASH] + ("." + ([SLASH] + rest))), false, depth) ==
      Walk(fs, cwd, base, PathText(names) + ([SLASH] + rest), false, depth)
    ensures names == [] ==>
      Walk(fs, cwd, base, PathText(names) + ([SLASH] + (".." + ([SLASH] + rest))), false, depth) == Failed(NoEnt)
    ensures names != [] ==>
      Walk(fs, cwd, base, PathText(names) + ([SLASH] + (".." + ([SLASH] + rest))), false, depth) ==
        Walk(fs, cwd, base, PathText(names[..|names| - 1]) + ([SLASH] + rest), false, depth)
  {
    DotComponents(rest);
    WalkThrough(fs, cwd, base, names, d, rest, false, depth);
    WalkThrough(fs, cwd, base, names, d, "." + ([SLASH] + rest), false, depth);
    WalkThrough(fs, cwd, base, names, d, ".." + ([SLASH] + rest), false, depth);
    ResolveStep(fs, d, ".", Components(rest), false, depth);
    ResolveStep(fs, d, "..", Components(rest), false, depth);
    if names != [] {
      var init, last := names[..|names| - 1], names[|names| - 1];
      var p := Reach(fs, init).node;
      ReachFacts(fs, init, p);
      UpBack(fs, p, last, fs.lookup(p, last).node);
      WalkThrough(fs, cwd, base, init, p, rest, false, depth);
    }
  }

  lemma UpBack(fs: Fs, p: int, name: string, v: int)
    requires Coherent(fs) && ValidName(name) && fs.lookup(p, name) == Ok(v) && fs.kind(v) == Dir && p != 0 && v != 0
    ensures Up(fs, Cross(fs, v)) == Ok(p)
  {
    StepBack(fs, p, name, v);
    UpIsStepUp(fs, Cross(fs, v));
  }

  /** The entry of a directory and ".." after it lead back to the directory. */
  lemma ThereAndBack(fs: Fs, d: int, name: string, v: int, depth: nat)
    requires Coherent(fs) && ValidName(name) && d != 0 && fs.lookup(d, name) == Ok(v) && v != 0 && fs.kind(v) == Dir
    requires fs.kind(d) == Dir && fs.canLookup(d) && fs.canLookup(Cross(fs, v)) && depth <= MAX_DEPTH
    ensures Resolve(fs, d, [name, ".."], false, depth) == Found(d, "")
  {
    StepBack(fs, d, name, v);
    UpBack(fs, d, name, v);
    ResolveStep(fs, d, name, [".."], false, depth);
    ResolveStep(fs, Cross(fs, v), "..", [], false, depth);
    assert [name] + [".."] == [name, ".."] && [".."] + [] == [".."];
  }

  /** Where the path of a node goes through a parent, ".." leads to that parent. */
  lemma UpIsStepUp(fs: Fs, n: int)
    requires WellFormed(fs) && n != Root(fs) && StepUp(fs, n).To?
    ensures Up(fs, n) == Ok(StepUp(fs, n).parent)
  {
  }

  /** A path to a directory that something is mounted on finds the root of what is mounted there. */
  lemma MountCovers(fs: Fs, cwd: int, base: int, names: seq<string>, d: int, name: string, v: int, m: int, depth: nat)
    requires Coherent(fs) && Reach(fs, names) == Ok(d) && fs.kind(d) == Dir && fs.canLookup(d)
    requires ValidName(name) && fs.lookup(d, name) == Ok(v) && fs.kind(v) == Dir && depth <= MAX_DEPTH
    requires m == fs.mountOf(v) && m != 0
    ensures m in fs.mounts && fs.mounts[m].point == v
    ensures Walk(fs, cwd, base, PathText(names) + ([SLASH] + name), false, depth) == Found(fs.mounts[m].root, "")
  {
    assert Agrees(fs, d, name, v);
    OneName(name);
    WalkThrough(fs, cwd, base, names, d, name, false, depth);
    ResolveStep(fs, d, name, [], false, depth);
    assert [name] + [] == [name];
  }

  function Linked(t: string, rest: string): string {
    if rest == [] then t else t + ([SLASH] + rest)
  }

  /** The directory d has a symbolic link under this name. */
  ghost predicate HasLink(fs: Fs, d: int, name: string)
    requires WellFormed(fs)
  {
    && d != 0 && fs.kind(d) == Dir && fs.canLookup(d) && ValidName(name) && fs.lookup(d, name).Ok?
    && fs.kind(Cross(fs, fs.lookup(d, name).node)) == Symlink
  }

  /** The directory d has, under this name, a symbolic link with this text. */
  ghost predicate LinkIn(fs: Fs, d: int, name: string, t: string)
    requires WellFormed(fs)
  {
    && HasLink(fs, d, name) && var link := Cross(fs, fs.lookup(d, name).node);
    fs.canRead(link) && fs.target(link) == Read(t) && 0 < |t| < 1024 && '\0' !in t
  }

  /** A link that cannot be read, or whose text is empty or has no room for a zero byte, ends the walk. */
  lemma BadLink(fs: Fs, cwd: int, base: int, names: seq<string>, d: int, name: string, rest: string, depth: nat)
    requires Coherent(fs) && Reach(fs, names) == Ok(d) && HasLink(fs, d, name) && depth < MAX_DEPTH
    requires rest != [] ==> rest[0] != SLASH
    ensures var got := Walk(fs, cwd, base, PathText(names) + ([SLASH] + Linked(name, rest)), false, depth);
      var link := Cross(fs, fs.lookup(d, name).node);
      && (!fs.canRead(link) ==> got == Failed(NotImplemented))
      && (fs.canRead(link) && fs.target(link).Unread? ==> got == Failed(fs.target(link).status))
      && (fs.canRead(link) && fs.target(link).Read? && !(0 < |fs.target(link).bytes| < 1024) ==>
        got == Failed(InvalidArg))
  {
    LinkedComponents(name, rest, Linked(name, rest));
    OneName(name);
    WalkThrough(fs, cwd, base, names, d, Linked(name, rest), false, depth);
    ResolveStep(fs, d, name, Components(rest), false, depth);
  }

  lemma TextOf(fs: Fs, link: int, t: string)
    requires fs.canRead(link) && fs.target(link) == Read(t) && 0 < |t| < 1024 && '\0' !in t
    ensures TargetOf(fs, link) == Read(t)
  {
    var r := CString(t);
    assert r == t;
  }

  /** A symbolic link on a path is replaced by its text: in place of the whole path so far if the text is
      absolute, and in place of the name if it is not.  The walk that goes on is one deeper, and the one
      that would be the 41st is refused. */
  lemma LinkIsText(fs: Fs, cwd: int, base: int, names: seq<string>, d: int, name: string,
                   t: string, rest: string, depth: nat)
    requires Coherent(fs) && Reach(fs, names) == Ok(d) && LinkIn(fs, d, name, t) && depth <= MAX_DEPTH
    requires rest != [] ==> rest[0] != SLASH
    ensures var got := Walk(fs, cwd, base, PathText(names) + ([SLASH] + Linked(name, rest)), false, depth);
      var text := Linked(t, rest);
      if depth == MAX_DEPTH then got == Failed(LoopError)
      else if t[0] == SLASH then got == Walk(fs, 0, 0, text, false, depth + 1)
      else got == Walk(fs, 0, 0, PathText(names) + ([SLASH] + text), false, depth + 1)
  {
    hide Components, TargetOf, Resolve, Cross;
    var comps := Components(rest);
    LinkedComponents(name, rest, Linked(name, rest));
    OneName(name);
    WalkThrough(fs, cwd, base, names, d, Linked(name, rest), false, depth);
    ResolveStep(fs, d, name, comps, false, depth);
    TextOf(fs, Cross(fs, fs.lookup(d, name).node), t);
    if depth < MAX_DEPTH {
      assert Linked(t, rest)[0] == t[0];
      LinkedComponents(t, rest, Linked(t, rest));
      if t[0] != SLASH { WalkThrough(fs, 0, 0, names, d, Linked(t, rest), false, depth + 1); }
    }
  }

  /** Each name of the chain is a link to the next, and the last one is an entry that is no link. */
  ghost predicate Chain(fs: Fs, d: int, links: seq<string>)
    requires WellFormed(fs)
  {
    && |links| > 0 && (forall k :: 0 <= k < |links| - 1 ==> LinkIn(fs, d, links[k], links[k + 1]))
    && var last := links[|links| - 1];
    ValidName(last) && fs.lookup(d, last).Ok? && fs.kind(Cross(fs, fs.lookup(d, last).node)) != Symlink
  }

  /** A chain of links is followed to its end exactly if it has no more links than the bound leaves. */
  lemma {:induction false} ChainEnds(fs: Fs, names: seq<string>, d: int, links: seq<string>, depth: nat)
    requires Coherent(fs) && Reach(fs, names) == Ok(d) && fs.kind(d) == Dir && fs.canLookup(d)
    requires Chain(fs, d, links) && depth <= MAX_DEPTH
    ensures Walk(fs, 0, 0, PathText(names) + ([SLASH] + links[0]), false, depth) ==
      if depth + |links| - 1 <= MAX_DEPTH then Found(Cross(fs, fs.lookup(d, links[|links| - 1]).node), "")
      else Failed(LoopError)
    decreases |links|
  {
    if |links| == 1 {
      OneName(links[0]);
      WalkThrough(fs, 0, 0, names, d, links[0], false, depth);
      ResolveStep(fs, d, links[0], [], false, depth);
      assert [links[0]] + [] == [links[0]];
    } else {
      assert LinkIn(fs, d, links[0], links[1]);
      LinkIsText(fs, 0, 0, names, d, links[0], links[1], [], depth);
      if depth < MAX_DEPTH {
        ChainRest(fs, d, links);
        ChainEnds(fs, names, d, links[1..], depth + 1);
      }
    }
  }

  lemma ChainRest(fs: Fs, d: int, links: seq<string>)
    requires WellFormed(fs) && Chain(fs, d, links) && |links| > 1
    ensures Chain(fs, d, links[1..]) && ValidName(links[1])
  {
    hide LinkIn;
    var rest := links[1..];
    forall k | 0 <= k < |rest| - 1 ensures LinkIn(fs, d, rest[k], rest[k + 1]) {
      assert LinkIn(fs, d, links[k + 1], links[k + 1 + 1]);
    }
    if |links| > 2 { NameOfLink(fs, d, links[1], links[1 + 1]); }
  }

  lemma NameOfLink(fs: Fs, d: int, name: string, t: string)
    requires WellFormed(fs) && LinkIn(fs, d, name, t)
    ensures ValidName(name)
  {
  }
}
