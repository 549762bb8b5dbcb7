/** The path of a directory, found by climbing to the root, and its way back. */
module VfsCwd {
  import opened Vfs

  /** A name without the slashes at its end. */
  function Trim(name: string): (r: string)
    ensures r <= name && (r != [] ==> r[|r| - 1] != SLASH) && forall i :: |r| <= i < |name| ==> name[i] == SLASH
  {
    if name != [] && name[|name| - 1] == SLASH then Trim(name[..|name| - 1]) else name
  }

  /** One step towards the root: the parent and, unless a mount covers the root of another, the name. */
  datatype Rise = To(parent: int, named: bool, name: string) | Stuck(status: Status)

  ghost function Visible(fs: Fs, n: int): Rise {
    if !fs.canParent(n) || !fs.canName(n) then Stuck(NotImplemented)
    else if fs.parentOf(n).Err? then Stuck(fs.parentOf(n).status)
    else if fs.parentOf(n).node == 0 || fs.parentOf(n).node == n then Stuck(NoEnt)
    else if fs.nameOf(n).Unread? then Stuck(fs.nameOf(n).status)
    else To(fs.parentOf(n).node, true, Trim(fs.nameOf(n).bytes))
  }

  /** getcwd_step_to_parent without the buffer. */
  ghost function StepUp(fs: Fs, n: int): Rise
    requires WellFormed(fs)
  {
    if IsMountRoot(fs, n) then
      var m := fs.mounts[fs.mountOf(n)];
      var above := fs.mounts[ParentMount(fs, fs.mountOf(n))].root;
      if m.point == 0 then Stuck(InvalidArg)
      else if m.point == above then To(above, false, "")
      else Visible(fs, m.point)
    else Visible(fs, n)
  }

  /** The loop of vfs_getcwd on a buffer of len bytes, of which acc and the terminating zero are used. */
  ghost function Climb(fs: Fs, n: int, acc: string, len: nat, depth: nat): Text
    requires WellFormed(fs)
    decreases TARGET_MAX - depth
  {
    if depth >= TARGET_MAX then Unread(LoopError)
    else if n == Root(fs) then
      if acc != [] then Read(acc) else if len >= 2 then Read([SLASH]) else Unread(RangeError)
    else
      var up := StepUp(fs, n);
      if up.Stuck? then Unread(up.status)
      else if !up.named then Climb(fs, up.parent, acc, len, depth + 1)
      else if len < |acc| + |up.name| + 2 then Unread(RangeError)
      else Climb(fs, up.parent, [SLASH] + up.name + acc, len, depth + 1)
  }

  /** The text at the end of the buffer, before its zero byte. */
  ghost predicate Holds(buffer: array<char>, pos: nat, acc: string)
    reads buffer
  {
    pos + |acc| + 1 == buffer.Length && buffer[pos..] == acc + ['\0']
  }

  method TrimLength(name: string) returns (len: nat)
    ensures len <= |name| && name[..len] == Trim(name)
  {
    len := |name|;
    assert name[..len] == name;
    while len > 0 && name[len - 1] == SLASH
      invariant 0 <= len <= |name| && Trim(name[..len]) == Trim(name)
    {
      assert name[..len][..len - 1] == name[..len - 1];
      len := len - 1;
    }
  }

  /** memcpy of text to the place just before pos. */
  method CopyBefore(buffer: array<char>, pos: nat, text: string)
    requires |text| <= pos <= buffer.Length
    modifies buffer
    ensures buffer[pos - |text|..] == text + old(buffer[pos..])
  {
    ghost var before := buffer[pos..];
    var start, i := pos - |text|, 0;
    while i < |text|
      invariant 0 <= i <= |text| && buffer[start..start + i] == text[..i] && buffer[pos..] == before
    {
      buffer[start + i] := text[i];
      i := i + 1;
    }
    assert buffer[start..] == buffer[start..start + i] + buffer[pos..];
    assert text[..i] == text;
  }

  /** getcwd_prepend_component. */
  method Prepend(buffer: array<char>, pos: nat, name: string, ghost acc: string) returns (ok: bool, pos': nat)
    requires Holds(buffer, pos, acc)
    modifies buffer
    ensures ok <==> buffer.Length >= |acc| + |Trim(name)| + 2
    ensures ok ==> Holds(buffer, pos', [SLASH] + Trim(name) + acc)
    ensures !ok ==> Holds(buffer, pos', acc) && pos' == pos
  {
    hide Trim;
    var len := TrimLength(name);
    if pos < len + 1 { return false, pos; }
    CopyBefore(buffer, pos, name[..len]);
    pos' := pos - len;
    CopyBefore(buffer, pos', [SLASH]);
    pos' := pos' - 1;
    assert [SLASH] + (name[..len] + (acc + ['\0'])) == [SLASH] + Trim(name) + acc + ['\0'];
    return true, pos';
  }

  /** What is left after one step: the node reached with its reference, and the text so far. */
  method StepToParent(v: Vnodes, n: int, buffer: array<char>, pos: nat, ghost acc: string, ghost r: multiset<int>)
    returns (up: Rise, pos': nat)
    requires WellFormed(v.fs) && n != 0 && v.refs == r + multiset{n} && Holds(buffer, pos, acc)
    modifies v, buffer
    ensures v.FreedOnly(old(v.freed), v.freed, r)
    ensures var u := StepUp(v.fs, n);
      if u.To? && u.named && buffer.Length < |acc| + |u.name| + 2 then up == Stuck(RangeError) else up == u
    ensures v.refs == r + multiset{if up.To? then up.parent else n} && (up.To? ==> up.parent != 0)
    ensures up.To? ==> Holds(buffer, pos', if up.named then [SLASH] + up.name + acc else acc)
  {
    v.FreedNone(v.freed, r);
    pos' := pos;
    var seen := n;
    if IsMountRoot(v.fs, n) {
      var m := v.fs.mountOf(n);
      var above := v.fs.mounts[ParentMount(v.fs, m)].root;
      if v.fs.mounts[m].point == 0 { return Stuck(InvalidArg), pos; }
      if v.fs.mounts[m].point == above {
        v.Borrow(above);
        Leave(v, n, above, r);
        return To(above, false, ""), pos;
      }
      seen := v.fs.mounts[m].point;
    }
    up, pos' := StepVisible(v, n, seen, buffer, pos, acc, r);
  }

  method Leave(v: Vnodes, n: int, parent: int, ghost r: multiset<int>)
    requires n != 0 && v.refs == r + multiset{n} + multiset{parent}
    modifies v
    ensures v.refs == r + multiset{parent} && v.FreedOnly(old(v.freed), v.freed, r)
  {
    assert r + multiset{n} + multiset{parent} == r + multiset{parent} + multiset{n};
    v.GiveUp(n, r + multiset{parent});
    v.FreedLess(old(v.freed), v.freed, r, multiset{parent});
  }

  /** The parent is given back; it may be null. */
  method Back(v: Vnodes, parent: int, n: int, ghost r: multiset<int>)
    requires n != 0 && v.refs == r + multiset{n} + (if parent != 0 then multiset{parent} else multiset{})
    modifies v
    ensures v.refs == r + multiset{n} && v.FreedOnly(old(v.freed), v.freed, r)
  {
    v.FreedNone(v.freed, r);
    if parent != 0 {
      v.GiveUp(parent, r + multiset{n});
      v.FreedLess(old(v.freed), v.freed, r, multiset{n});
    } else {
      v.Release(parent);
    }
  }

  method StepVisible(v: Vnodes, n: int, seen: int, buffer: array<char>, pos: nat,
                     ghost acc: string, ghost r: multiset<int>)
    returns (up: Rise, pos': nat)
    requires n != 0 && v.refs == r + multiset{n} && Holds(buffer, pos, acc)
    modifies v, buffer
    ensures v.FreedOnly(old(v.freed), v.freed, r)
    ensures var u := Visible(v.fs, seen);
      if u.To? && u.named && buffer.Length < |acc| + |u.name| + 2 then up == Stuck(RangeError) else up == u
    ensures v.refs == r + multiset{if up.To? then up.parent else n} && (up.To? ==> up.parent != 0 && up.named)
    ensures up.To? ==> Holds(buffer, pos', [SLASH] + up.name + acc)
  {
    hide Trim;
    v.FreedNone(v.freed, r);
    var fs := v.fs;
    if !fs.canParent(seen) || !fs.canName(seen) { return Stuck(NotImplemented), pos; }
    var res := fs.parentOf(seen);
    if res.Err? { return Stuck(res.status), pos; }
    var parent := res.node;
    v.Borrow(parent);
    if parent == 0 || parent == seen {
      Back(v, parent, n, r);
      return Stuck(NoEnt), pos;
    }
    var name := fs.nameOf(seen);
    if name.Unread? {
      Back(v, parent, n, r);
      return Stuck(name.status), pos;
    }
    var ok;
    ok, pos' := Prepend(buffer, pos, name.bytes, acc);
    if !ok {
      Back(v, parent, n, r);
      return Stuck(RangeError), pos;
    }
    Leave(v, n, parent, r);
    up := To(parent, true, Trim(name.bytes));
  }

  datatype Ending = Fine | Bad(status: Status)

  ghost predicate Ends(end: Ending, text: string, result: Text) {
    match end
    case Fine => result == Read(text)
    case Bad(st) => result == Unread(st)
  }

  /** The loop of vfs_getcwd. */
  method ClimbUp(v: Vnodes, start: int, buffer: array<char>, pos0: nat, ghost r: multiset<int>)
    returns (end: Ending, current: int, pos: nat, ghost acc: string)
    requires WellFormed(v.fs) && start != 0 && v.refs == r + multiset{start} && Holds(buffer, pos0, "")
    modifies v, buffer
    ensures v.FreedOnly(old(v.freed), v.freed, r) && current != 0 && v.refs == r + multiset{current}
    ensures Ends(end, acc, Climb(v.fs, start, "", buffer.Length, 0)) && (end == Fine ==> Holds(buffer, pos, acc))
  {
    hide Climb, StepUp, Root;
    v.FreedNone(v.freed, r);
    current, pos, acc := start, pos0, "";
    var depth := 0;
    ghost var whole := Climb(v.fs, start, "", buffer.Length, 0);
    while depth < TARGET_MAX
      invariant 0 <= depth <= TARGET_MAX && current != 0 && v.refs == r + multiset{current}
      invariant v.FreedOnly(old(v.freed), v.freed, r)
      invariant Holds(buffer, pos, acc) && whole == Climb(v.fs, current, acc, buffer.Length, depth)
    {
      ClimbStep(v.fs, current, acc, buffer.Length, depth);
      if current == Root(v.fs) {
        if pos == buffer.Length - 1 {
          var ok;
          ok, pos := Prepend(buffer, pos, "", acc);
          if !ok { return Bad(RangeError), current, pos, acc; }
          assert [SLASH] + Trim("") + acc == [SLASH];
          acc := [SLASH];
        }
        return Fine, current, pos, acc;
      }
      var up;
      ghost var mid := v.freed;
      up, pos := StepToParent(v, current, buffer, pos, acc, r);
      v.FreedThen(old(v.freed), mid, v.freed, r);
      if up.Stuck? { return Bad(up.status), current, pos, acc; }
      current := up.parent;
      acc := if up.named then [SLASH] + up.name + acc else acc;
      depth := depth + 1;
    }
    ClimbStep(v.fs, current, acc, buffer.Length, depth);
    return Bad(LoopError), current, pos, acc;
  }

  lemma ClimbStep(fs: Fs, n: int, acc: string, len: nat, depth: nat)
    requires WellFormed(fs)
    ensures depth >= TARGET_MAX ==> Climb(fs, n, acc, len, depth) == Unread(LoopError)
    ensures depth < TARGET_MAX && n == Root(fs) ==>
      Climb(fs, n, acc, len, depth) ==
        if acc != [] then Read(acc) else if len >= 2 then Read([SLASH]) else Unread(RangeError)
    ensures depth < TARGET_MAX && n != Root(fs) ==> var up := StepUp(fs, n);
      Climb(fs, n, acc, len, depth) ==
        if up.Stuck? then Unread(up.status)
        else if !up.named then Climb(fs, up.parent, acc, len, depth + 1)
        else if len < |acc| + |up.name| + 2 then Unread(RangeError)
        else Climb(fs, up.parent, [SLASH] + up.name + acc, len, depth + 1)
  {
  }

  /** memmove of the rest of the buffer to its front. */
  method MoveFront(buffer: array<char>, pos: nat)
    requires pos <= buffer.Length
    modifies buffer
    ensures buffer[..buffer.Length - pos] == old(buffer[pos..])
  {
    ghost var before := buffer[pos..];
    var i := 0;
    while i < buffer.Length - pos
      invariant 0 <= i <= buffer.Length - pos
      invariant forall k :: 0 <= k < i ==> buffer[k] == before[k]
      invariant forall k :: i <= k < |before| ==> buffer[pos + k] == before[k]
    {
      buffer[i] := buffer[pos + i];
      i := i + 1;
    }
  }

  /** vfs_getcwd: the path of `cwd`, or of the root if it is null; no reference count changes. */
  method GetCwd(v: Vnodes, cwd: int, buffer: array<char>) returns (end: Ending, ghost text: string)
    requires (v.fs.rootMount != 0 ==> WellFormed(v.fs))
    modifies v, buffer
    ensures v.refs == old(v.refs) && v.FreedOnly(old(v.freed), v.freed, old(v.refs))
    ensures v.Kept(old(v.refs)) ==> v.freed == old(v.freed)
    ensures buffer.Length == 0 ==> end == Bad(RangeError)
    ensures buffer.Length > 0 && v.fs.rootMount == 0 ==> end == Bad(NoEnt)
    ensures buffer.Length > 0 && v.fs.rootMount != 0 ==>
      Ends(end, text, Climb(v.fs, if cwd == 0 then Root(v.fs) else cwd, "", buffer.Length, 0))
    ensures end == Fine ==> |text| < buffer.Length && buffer[..|text| + 1] == text + ['\0']
  {
    hide Climb, Ends;
    v.FreedNone(v.freed, v.refs);
    text := "";
    if buffer.Length == 0 { return Bad(RangeError), ""; }
    if v.fs.rootMount == 0 { return Bad(NoEnt), ""; }
    var current := if cwd == 0 then Root(v.fs) else cwd;
    ghost var r := v.refs;
    v.Borrow(current);
    var pos := buffer.Length - 1;
    buffer[pos] := '\0';
    assert buffer[pos..] == "" + ['\0'];
    end, current, pos, text := ClimbUp(v, current, buffer, pos, r);
    ghost var mid := v.freed;
    v.GiveUp(current, r);
    v.FreedThen(old(v.freed), mid, v.freed, r);
    if v.Kept(r) { v.FreedKept(old(v.freed), v.freed, r); }
    if end == Fine { MoveFront(buffer, pos); }
  }

  // The way back.

  predicate ValidName(s: string) {
    s != [] && SLASH !in s && '\0' !in s && s != "." && s != ".."
  }

  /** Directory v, the entry `name` of p, knows its parent and name, is no mount root, and a mount on it is
      attached to it. */
  ghost predicate Agrees(fs: Fs, p: int, name: string, v: int)
    requires WellFormed(fs)
  {
    && fs.canParent(v) && fs.canName(v) && fs.parentOf(v) == Ok(p) && p != v && p != 0
    && fs.nameOf(v).Read? && Trim(fs.nameOf(v).bytes) == name
    && (forall m :: m in fs.mounts ==> fs.mounts[m].root != v)
    && (fs.mountOf(v) != 0 ==>
          var m := fs.mountOf(v);
          m != fs.rootMount && fs.mounts[m].point == v && fs.mountOf(fs.mounts[m].root) == m &&
            fs.kind(fs.mounts[m].root) == Dir)
  }

  /** Directories name their parents, siblings have different names, and the root is where it says. */
  ghost predicate Coherent(fs: Fs) {
    && WellFormed(fs) && fs.mountOf(Root(fs)) == fs.rootMount
    && forall p, name :: ValidName(name) && fs.lookup(p, name).Ok? && fs.kind(fs.lookup(p, name).node) == Dir ==>
         Agrees(fs, p, name, fs.lookup(p, name).node)
  }

  /** The directory at the end of a path of names, each looked up in the one before. */
  ghost function Reach(fs: Fs, names: seq<string>): Res
    requires WellFormed(fs)
  {
    if names == [] then Ok(Root(fs))
    else
      var last := names[|names| - 1];
      match Reach(fs, names[..|names| - 1])
      case Err(st) => Err(st)
      case Ok(p) =>
        if p != 0 && fs.kind(p) == Dir && fs.canLookup(p) && ValidName(last) && fs.lookup(p, last).Ok? &&
          fs.kind(fs.lookup(p, last).node) == Dir
        then Ok(Cross(fs, fs.lookup(p, last).node))
        else Err(NoEnt)
  }

  function PathText(names: seq<string>): string {
    if names == [] then [] else PathText(names[..|names| - 1]) + ([SLASH] + names[|names| - 1])
  }

  /** Climbing from a reached directory undoes its last step. */
  lemma StepBack(fs: Fs, p: int, name: string, v: int)
    requires Coherent(fs) && ValidName(name) && fs.lookup(p, name) == Ok(v) && fs.kind(v) == Dir && p != 0 && v != 0
    ensures StepUp(fs, Cross(fs, v)) == To(p, true, name) && Cross(fs, v) != Root(fs) && fs.kind(Cross(fs, v)) == Dir
  {
    assert Agrees(fs, p, name, v);
  }

  lemma {:induction false} ReachFacts(fs: Fs, names: seq<string>, d: int)
    requires Coherent(fs) && Reach(fs, names) == Ok(d)
    ensures d != 0 && forall k :: 0 <= k < |names| ==> ValidName(names[k])
  {
    if names != [] {
      var init := names[..|names| - 1];
      var p := Reach(fs, init).node;
      ReachFacts(fs, init, p);
      forall k | 0 <= k < |names| ensures ValidName(names[k]) {
        if k < |names| - 1 { assert names[k] == init[k]; }
      }
    }
  }

  /** The climb rewrites the names in order, and succeeds exactly when they fit the buffer and the bound. */
  lemma {:induction false} ClimbNames(fs: Fs, names: seq<string>, d: int, acc: string, len: nat, depth: nat)
    requires Coherent(fs) && Reach(fs, names) == Ok(d) && depth <= TARGET_MAX && |acc| + 1 <= len
    requires (names != [] || acc != [])
    ensures depth + |names| < TARGET_MAX && |PathText(names)| + |acc| + 1 <= len ==>
      Climb(fs, d, acc, len, depth) == Read(PathText(names) + acc)
    ensures depth + |names| >= TARGET_MAX && |PathText(names)| + |acc| + 1 <= len ==>
      Climb(fs, d, acc, len, depth) == Unread(LoopError)
    ensures depth + |names| < TARGET_MAX && |PathText(names)| + |acc| + 1 > len ==>
      Climb(fs, d, acc, len, depth) == Unread(RangeError)
    ensures depth + |names| >= TARGET_MAX || |PathText(names)| + |acc| + 1 > len ==>
      Climb(fs, d, acc, len, depth).Unread?
    decreases |names|
  {
    ClimbStep(fs, d, acc, len, depth);
    if names != [] && depth < TARGET_MAX {
      var n := |names| - 1;
      var init, last := names[..n], names[n];
      var p := Reach(fs, init).node;
      ReachFacts(fs, init, p);
      StepBack(fs, p, last, fs.lookup(p, last).node);
      if len >= |acc| + |last| + 2 {
        ClimbNames(fs, init, p, [SLASH] + last + acc, len, depth + 1);
        assert PathText(init) + ([SLASH] + last + acc) == PathText(names) + acc;
      }
    }
  }

  /** A walk along the names arrives where they lead. */
  lemma {:induction false} ReachResolve(fs: Fs, names: seq<string>, d: int, rest: seq<string>, stop: bool, depth: nat)
    requires Coherent(fs) && Reach(fs, names) == Ok(d) && d != 0 && depth <= MAX_DEPTH && (stop ==> rest != [])
    ensures Root(fs) != 0 && Resolve(fs, Root(fs), names + rest, stop, depth) == Resolve(fs, d, rest, stop, depth)
    decreases |names|
  {
    hide Resolve, StepUp;
    if names == [] {
      assert names + rest == rest;
    } else {
      var n := |names| - 1;
      var init, last := names[..n], names[n];
      var p := Reach(fs, init).node;
      ReachFacts(fs, init, p);
      ReachResolve(fs, init, p, [last] + rest, stop, depth);
      assert init + ([last] + rest) == names + rest;
      ResolveStep(fs, p, last, rest, stop, depth);
      StepBack(fs, p, last, fs.lookup(p, last).node);
    }
  }

  lemma {:induction false} TextComponents(names: seq<string>)
    requires forall k :: 0 <= k < |names| ==> ValidName(names[k])
    ensures Components(PathText(names)) == names && '\0' !in PathText(names)
    ensures names != [] ==> PathText(names) != [] && PathText(names)[0] == SLASH
  {
    if names != [] {
      var n := |names| - 1;
      var init, last := names[..n], names[n];
      TextComponents(init);
      ComponentsJoin(PathText(init), [SLASH] + last);
      OneComponent(last);
      assert names == init + [last];
    }
  }

  lemma OneComponent(name: string)
    requires ValidName(name)
    ensures Components([SLASH] + name) == [name]
  {
    var q := [SLASH] + name;
    ComponentsTake(q, 1, |q|);
    ComponentsSkip(q, 0);
    assert q[0..] == q && q[1..] == name && q[1..|q|] == name && q[|q|..] == [];
  }

  /** For a directory reached from the root along names, vfs_getcwd succeeds exactly when the path fits the
      buffer with its zero byte and has fewer than 1024 names, and a lookup of what it wrote finds that
      directory again. */
  lemma RoundTrip(fs: Fs, names: seq<string>, d: int, len: nat, cwd: int, base: int)
    requires Coherent(fs) && Reach(fs, names) == Ok(d) && len > 0
    ensures var text := if names == [] then [SLASH] else PathText(names);
      && (Climb(fs, d, "", len, 0).Read? <==> |names| < TARGET_MAX && |text| + 1 <= len)
      && (Climb(fs, d, "", len, 0).Read? ==> Climb(fs, d, "", len, 0).bytes == text)
      && Walk(fs, cwd, base, text, false, 0) == Found(d, "")
  {
    ReachFacts(fs, names, d);
    TextComponents(names);
    ReachResolve(fs, names, d, [], false, 0);
    assert names + [] == names;
    ResolveEnd(fs, d, [], false, 0);
    if names == [] {
      ClimbStep(fs, d, "", len, 0);
      ComponentsSkip([SLASH], 0);
      assert [SLASH][0..] == [SLASH] && [SLASH][1..] == [];
    } else {
      ClimbNames(fs, names, d, "", len, 0);
      assert PathText(names) + "" == PathText(names);
    }
  }
}
