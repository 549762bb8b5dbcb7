/** The Brainfuck interpreter: bracket partners are found by scanning, and on a balanced source
    the result is that of structured while loops.
  */
module Hbfi {
  const CELLS := 1024
  const WORD := 0x1_0000_0000_0000_0000

  type Byte = n: nat | n < 256

  // Bracket partners.

  function Weight(c: char): int {
    if c == '[' then 1 else if c == ']' then -1 else 0
  }

  /** Opening minus closing brackets. */
  function Depth(s: string): int {
    if s == [] then 0 else Depth(s[..|s| - 1]) + Weight(s[|s| - 1])
  }

  lemma {:induction false} DepthConcat(a: string, b: string)
    ensures Depth(a + b) == Depth(a) + Depth(b)
    decreases |b|
  {
    if b == [] {
      assert a + b == a;
    } else {
      var b' := b[..|b| - 1];
      assert (a + b)[..|a + b| - 1] == a + b';
      DepthConcat(a, b');
    }
  }

  lemma DepthSplit(src: string, i: nat, k: nat, j: nat)
    requires i <= k <= j <= |src|
    ensures Depth(src[i..j]) == Depth(src[i..k]) + Depth(src[k..j])
  {
    assert src[i..j] == src[i..k] + src[k..j];
    DepthConcat(src[i..k], src[k..j]);
  }

  lemma DepthOne(src: string, i: nat)
    requires i < |src|
    ensures Depth(src[i..i + 1]) == Weight(src[i])
  {
    assert src[i..i + 1] == [src[i]];
    assert [src[i]][..0] == [];
  }

  /** The bracket at i is closed by the one just before e. */
  ghost predicate Partner(src: string, i: nat, e: nat) {
    && i + 1 < e <= |src| && src[i] == '[' && src[e - 1] == ']'
    && Depth(src[i..e]) == 0
    && forall k :: i < k < e ==> Depth(src[i..k]) > 0
  }

  /** The bracket at i is closed by the one at j. */
  ghost predicate ClosedAt(src: string, i: nat, j: nat) {
    Partner(src, i, j + 1)
  }

  /** The same seen from the closing bracket. */
  lemma PartnerBack(src: string, i: nat, e: nat)
    requires Partner(src, i, e)
    ensures forall k :: i < k < e ==> Depth(src[k..e]) < 0
  {
    forall k | i < k < e ensures Depth(src[k..e]) < 0 {
      DepthSplit(src, i, k, e);
    }
  }

  lemma FromBack(src: string, i: nat, e: nat)
    requires i + 1 < e <= |src| && src[i] == '[' && src[e - 1] == ']' && Depth(src[i..e]) == 0
    requires forall k :: i < k < e ==> Depth(src[k..e]) < 0
    ensures Partner(src, i, e)
  {
    forall k | i < k < e ensures Depth(src[i..k]) > 0 {
      DepthSplit(src, i, k, e);
    }
  }

  lemma PartnerUnique(src: string, i: nat, e: nat, i': nat, e': nat)
    requires Partner(src, i, e) && Partner(src, i', e') && (i == i' || e == e')
    ensures i == i' && e == e'
  {
    PartnerBack(src, i, e);
    PartnerBack(src, i', e');
  }

  /** skip_forward: past the partner of the bracket at i, or to the end if it has none. */
  method SkipForward(src: string, i: nat) returns (next: nat)
    requires i < |src| && src[i] == '['
    ensures Partner(src, i, next) || (next == |src| && forall e :: !Partner(src, i, e))
    ensures next == Forward(src, i)
  {
    var depth := 1;
    next := i + 1;
    DepthOne(src, i);
    while next < |src|
      invariant i < next <= |src| && depth == Depth(src[i..next])
      invariant forall k :: i < k <= next ==> Depth(src[i..k]) > 0
    {
      DepthSplit(src, i, next, next + 1);
      DepthOne(src, next);
      if src[next] == '[' {
        depth := depth + 1;
      } else if src[next] == ']' {
        depth := depth - 1;
        if depth == 0 {
          JumpsTo(src, i, next + 1);
          return next + 1;
        }
      }
      next := next + 1;
    }
    return |src|;
  }

  /** skip_backward: past the partner of the bracket at j, or past j itself if it has none. */
  method SkipBackward(src: string, j: nat) returns (next: nat)
    requires j < |src| && src[j] == ']'
    ensures (next > 0 && ClosedAt(src, next - 1, j)) || (next == j + 1 && forall i: nat :: !ClosedAt(src, i, j))
    ensures next == Backward(src, j)
  {
    ghost var e := j + 1;
    var depth := 1;
    next := j;
    DepthOne(src, j);
    while next > 0
      invariant next <= j && depth == -Depth(src[next..e])
      invariant forall k :: next <= k < e ==> Depth(src[k..e]) < 0
    {
      next := next - 1;
      DepthSplit(src, next, next + 1, e);
      DepthOne(src, next);
      if src[next] == ']' {
        depth := depth + 1;
      } else if src[next] == '[' {
        depth := depth - 1;
        if depth == 0 {
          FromBack(src, next, e);
          JumpsTo(src, next, e);
          return next + 1;
        }
      }
    }
    return j + 1;
  }

  /** Where skip_forward goes from i. */
  ghost function Forward(src: string, i: nat): nat {
    if exists e: nat :: Partner(src, i, e) then var e: nat :| Partner(src, i, e); e else |src|
  }

  /** Where skip_backward goes from j. */
  ghost function Backward(src: string, j: nat): nat {
    if exists i: nat :: ClosedAt(src, i, j) then (var i: nat :| ClosedAt(src, i, j); i + 1) else j + 1
  }

  lemma JumpsTo(src: string, i: nat, e: nat)
    requires Partner(src, i, e)
    ensures Forward(src, i) == e && Backward(src, e - 1) == i + 1
  {
    PartnerUnique(src, i, e, i, Forward(src, i));
    assert ClosedAt(src, i, e - 1);
    PartnerUnique(src, i, e, Backward(src, e - 1) - 1, e);
  }

  /** In any source a forward jump that finds a partner and the backward jump from it are inverse. */
  lemma JumpsInverse(src: string, i: nat, j: nat)
    requires i < j < |src| && src[i] == '[' && src[j] == ']'
    ensures ClosedAt(src, i, j) <==> Backward(src, j) == i + 1
    ensures Backward(src, j) == i + 1 ==> Forward(src, i) == j + 1
    ensures Forward(src, i) == j + 1 && (exists e :: Partner(src, i, e)) ==> Backward(src, j) == i + 1
  {
    if Partner(src, i, j + 1) { JumpsTo(src, i, j + 1); }
  }

  // The machine.

  /** The tape, the data pointer as an unsigned word, the input left and the output so far. */
  datatype Tape = Tape(cells: seq<Byte>, ptr: nat, input: seq<Byte>, output: seq<Byte>)

  predicate InRange(t: Tape) {
    t.ptr < |t.cells|
  }

  datatype Outcome = Ok(tape: Tape) | OutOfRange

  function Inc(b: Byte): Byte {
    if b == 255 then 0 else b + 1
  }

  function Dec(b: Byte): Byte {
    if b == 0 then 255 else b - 1
  }

  /** putchar, getchar and the arithmetic on cells and pointer; a character that is no command does
      nothing.  getchar gives 255 at the end of the input. */
  function Effect(c: char, t: Tape): Outcome {
    if c == '>' then Ok(t.(ptr := (t.ptr + 1) % WORD))
    else if c == '<' then Ok(t.(ptr := (t.ptr + WORD - 1) % WORD))
    else if c !in {'+', '-', '.', ','} then Ok(t)
    else if !InRange(t) then OutOfRange
    else if c == '+' then Ok(t.(cells := t.cells[t.ptr := Inc(t.cells[t.ptr])]))
    else if c == '-' then Ok(t.(cells := t.cells[t.ptr := Dec(t.cells[t.ptr])]))
    else if c == '.' then Ok(t.(output := t.output + [t.cells[t.ptr]]))
    else if t.input == [] then Ok(t.(cells := t.cells[t.ptr := 255]))
    else Ok(t.(cells := t.cells[t.ptr := t.input[0]], input := t.input[1..]))
  }

  /** The interpreter before one instruction, or after an access outside the tape. */
  datatype Conf = At(pc: nat, tape: Tape) | Fault

  ghost function Step(src: string, c: Conf): Conf {
    if c.Fault? || c.pc >= |src| then c
    else if src[c.pc] == '[' || src[c.pc] == ']' then
      if !InRange(c.tape) then Fault
      else if src[c.pc] == '[' then At(if c.tape.cells[c.tape.ptr] != 0 then c.pc + 1 else Forward(src, c.pc), c.tape)
      else At(if c.tape.cells[c.tape.ptr] == 0 then c.pc + 1 else Backward(src, c.pc), c.tape)
    else
      match Effect(src[c.pc], c.tape)
      case Ok(t) => At(c.pc + 1, t)
      case OutOfRange => Fault
  }

  ghost function Steps(src: string, c: Conf, n: nat): Conf
    decreases n
  {
    if n == 0 then c else Steps(src, Step(src, c), n - 1)
  }

  lemma {:induction false} StepsAdd(src: string, c: Conf, m: nat, n: nat)
    ensures Steps(src, c, m + n) == Steps(src, Steps(src, c, m), n)
    decreases m
  {
    if m > 0 { StepsAdd(src, Step(src, c), m - 1, n); }
  }

  ghost predicate Stopped(src: string, c: Conf) {
    c.Fault? || c.pc >= |src|
  }

  lemma {:induction false} StoppedStays(src: string, c: Conf, n: nat)
    requires Stopped(src, c)
    ensures Steps(src, c, n) == c
    decreases n
  {
    if n > 0 { StoppedStays(src, c, n - 1); }
  }

  /** One command that is no bracket, on the array of cells. */
  method Act(c: char, data: array<Byte>, ptr: nat, input: seq<Byte>, output: seq<Byte>)
    returns (ptr': nat, input': seq<Byte>, output': seq<Byte>)
    requires c in {'+', '-', '.', ','} ==> ptr < data.Length
    modifies data
    ensures Effect(c, Tape(old(data[..]), ptr, input, output)) == Ok(Tape(data[..], ptr', input', output'))
  {
    ptr', input', output' := ptr, input, output;
    if c == '>' { ptr' := (ptr + 1) % WORD; }
    else if c == '<' { ptr' := (ptr + WORD - 1) % WORD; }
    else if c == '+' { data[ptr] := Inc(data[ptr]); }
    else if c == '-' { data[ptr] := Dec(data[ptr]); }
    else if c == '.' { output' := output + [data[ptr]]; }
    else if c == ',' {
      if input == [] { data[ptr] := 255; } else { data[ptr], input' := input[0], input[1..]; }
    }
  }

  /** run, for at most `limit` instructions; the loop of the source has no bound of its own. */
  method Run(src: string, input: seq<Byte>, limit: nat)
    returns (cells: seq<Byte>, ptr: nat, rest: seq<Byte>, output: seq<Byte>, fault: bool)
    ensures var t := Tape(seq(CELLS, _ => 0), 0, input, []);
      var c := Steps(src, At(0, t), limit);
      (fault <==> c.Fault?) && (c.At? ==> c.tape == Tape(cells, ptr, rest, output))
  {
    hide Effect, Forward, Backward;
    var data := new Byte[CELLS](_ => 0);
    var pc: nat, n := 0, 0;
    ptr, rest, output, fault := 0, input, [], false;
    ghost var t0 := Tape(seq(CELLS, _ => 0), 0, input, []);
    assert data[..] == t0.cells;
    while pc < |src| && n < limit
      invariant n <= limit && fresh(data) && data.Length == CELLS
      invariant Steps(src, At(0, t0), limit) == Steps(src, At(pc, Tape(data[..], ptr, rest, output)), limit - n)
      decreases limit - n
    {
      var c := src[pc];
      if c in {'+', '-', '.', ',', '[', ']'} && ptr >= data.Length {
        if c != '[' && c != ']' { Faults(c, Tape(data[..], ptr, rest, output)); }
        StoppedStays(src, Fault, limit - n - 1);
        cells, fault := data[..], true;
        return;
      }
      n := n + 1;
      if c == '[' {
        if data[ptr] != 0 { pc := pc + 1; } else { pc := SkipForward(src, pc); }
      } else if c == ']' {
        if data[ptr] == 0 { pc := pc + 1; } else { pc := SkipBackward(src, pc); }
      } else {
        ptr, rest, output := Act(c, data, ptr, rest, output);
        pc := pc + 1;
      }
    }
    cells := data[..];
    if pc >= |src| { StoppedStays(src, At(pc, Tape(cells, ptr, rest, output)), limit - n); }
  }

  lemma Faults(c: char, t: Tape)
    requires c in {'+', '-', '.', ','} && !InRange(t)
    ensures Effect(c, t) == OutOfRange
  {
  }

  // Structured programs.

  datatype Prog = Skip | Do(command: char, rest: Prog) | Loop(body: Prog, rest: Prog)

  function Print(p: Prog): string {
    match p
    case Skip => []
    case Do(c, rest) => [c] + Print(rest)
    case Loop(body, rest) => "[" + Print(body) + "]" + Print(rest)
  }

  /** No command of a program is a bracket. */
  predicate Plain(p: Prog) {
    match p
    case Skip => true
    case Do(c, rest) => c != '[' && c != ']' && Plain(rest)
    case Loop(body, rest) => Plain(body) && Plain(rest)
  }

  /** A bracket never closes what was not opened, and all are closed. */
  ghost predicate Balanced(src: string) {
    Depth(src) == 0 && forall k :: 0 <= k <= |src| ==> Depth(src[..k]) >= 0
  }

  lemma {:induction false} PrintBalanced(p: Prog)
    requires Plain(p)
    ensures Balanced(Print(p))
  {
    match p
    case Skip =>
    case Do(c, rest) =>
      PrintBalanced(rest);
      PrefixBalanced([c], Print(rest));
    case Loop(body, rest) =>
      PrintBalanced(body);
      PrintBalanced(rest);
      var loop := "[" + Print(body) + "]";
      LoopBalanced(Print(body));
      PrefixBalanced(loop, Print(rest));
  }

  lemma PrefixBalanced(a: string, b: string)
    requires Balanced(b) && (Balanced(a) || (|a| == 1 && Weight(a[0]) == 0))
    ensures Balanced(a + b)
  {
    DepthConcat(a, b);
    if |a| == 1 { DepthOne(a, 0); assert a[0..1] == a; }
    forall k | 0 <= k <= |a + b| ensures Depth((a + b)[..k]) >= 0 {
      if k <= |a| {
        assert (a + b)[..k] == a[..k];
        assert k == |a| ==> a[..k] == a;
      } else {
        assert (a + b)[..k] == a + b[..k - |a|];
        DepthConcat(a, b[..k - |a|]);
      }
    }
  }

  lemma LoopBalanced(b: string)
    requires Balanced(b)
    ensures Balanced("[" + b + "]") && Depth("[" + b + "]") == 0
    ensures forall k :: 0 < k < |b| + 2 ==> Depth(("[" + b + "]")[..k]) > 0
  {
    var s := "[" + b + "]";
    DepthOne("[", 0);
    DepthOne("]", 0);
    assert "["[0..1] == "[" && "]"[0..1] == "]";
    DepthConcat("[", b);
    DepthConcat("[" + b, "]");
    forall k | 0 <= k <= |s| ensures Depth(s[..k]) >= 0 && (0 < k < |s| ==> Depth(s[..k]) > 0) {
      if k == |s| { assert s[..k] == s; }
      else if 0 < k {
        assert s[..k] == "[" + b[..k - 1];
        DepthConcat("[", b[..k - 1]);
      }
    }
  }

  /** The brackets around a balanced body are partners, whatever surrounds them. */
  lemma LoopPartner(pre: string, b: string, post: string, src: string)
    requires Balanced(b) && src == pre + "[" + b + "]" + post
    ensures Partner(src, |pre|, |pre| + |b| + 2)
  {
    LoopBalanced(b);
    var s, i, e := "[" + b + "]", |pre|, |pre| + |b| + 2;
    assert src[i..e] == s;
    forall k | i < k < e ensures Depth(src[i..k]) > 0 {
      assert src[i..k] == s[..k - i];
    }
  }

  /** In a balanced source every opening bracket at the front has its partner. */
  lemma FirstPartner(src: string) returns (e: nat)
    requires Balanced(src) && src != [] && src[0] == '['
    ensures Partner(src, 0, e) && Balanced(src[1..e - 1]) && Balanced(src[e..])
  {
    DepthOne(src, 0);
    assert src[..|src|] == src;
    e := 1;
    while Depth(src[..e]) > 0
      invariant 1 <= e <= |src| && forall k :: 0 < k < e ==> Depth(src[..k]) > 0
      decreases |src| - e
    {
      e := e + 1;
    }
    DepthSplit(src, 0, e - 1, e);
    DepthOne(src, e - 1);
    assert src[0..e] == src[..e] && src[0..e - 1] == src[..e - 1];
    forall k | 0 < k < e ensures Depth(src[0..k]) > 0 { assert src[0..k] == src[..k]; }
    Inner(src, e);
    Outer(src, e);
  }

  lemma Inner(src: string, e: nat)
    requires Partner(src, 0, e)
    ensures Balanced(src[1..e - 1])
  {
    var b := src[1..e - 1];
    DepthOne(src, 0);
    DepthOne(src, e - 1);
    DepthSplit(src, 0, 1, e);
    DepthSplit(src, 1, e - 1, e);
    forall k | 0 <= k <= |b| ensures Depth(b[..k]) >= 0 {
      assert b[..k] == src[1..k + 1];
      DepthSplit(src, 0, 1, k + 1);
    }
  }

  lemma Outer(src: string, e: nat)
    requires Balanced(src) && Partner(src, 0, e)
    ensures Balanced(src[e..])
  {
    var r := src[e..];
    assert src == src[0..e] + r;
    DepthConcat(src[0..e], r);
    forall k | 0 <= k <= |r| ensures Depth(r[..k]) >= 0 {
      assert src[..e + k] == src[0..e] + r[..k];
      DepthConcat(src[0..e], r[..k]);
    }
  }

  /** Every balanced source is the text of a structured program. */
  lemma {:induction false} Parse(src: string) returns (p: Prog)
    requires Balanced(src)
    ensures Plain(p) && Print(p) == src
    decreases |src|
  {
    if src == [] { return Skip; }
    if src[0] == '[' {
      var e := FirstPartner(src);
      var body := Parse(src[1..e - 1]);
      var rest := Parse(src[e..]);
      assert src == "[" + src[1..e - 1] + "]" + src[e..];
      return Loop(body, rest);
    }
    DepthOne(src, 0);
    assert src[..1] == src[0..1];
    assert src == [src[0]] + src[1..];
    Dropped(src);
    var rest := Parse(src[1..]);
    return Do(src[0], rest);
  }

  lemma Dropped(src: string)
    requires Balanced(src) && src != [] && Weight(src[0]) == 0
    ensures Balanced(src[1..])
  {
    var r := src[1..];
    DepthOne(src, 0);
    assert src == src[0..1] + r;
    DepthConcat(src[0..1], r);
    forall k | 0 <= k <= |r| ensures Depth(r[..k]) >= 0 {
      assert src[..1 + k] == src[0..1] + r[..k];
      DepthConcat(src[0..1], r[..k]);
    }
  }

  datatype Result = Done(tape: Tape) | Bad | Unfinished

  /** While loops, with a bound on the nesting of iterations. */
  function Exec(p: Prog, t: Tape, fuel: nat): Result
    decreases fuel, p
  {
    match p
    case Skip => Done(t)
    case Do(c, rest) =>
      (match Effect(c, t)
       case Ok(t') => Exec(rest, t', fuel)
       case OutOfRange => Bad)
    case Loop(body, rest) =>
      if !InRange(t) then Bad
      else if t.cells[t.ptr] == 0 then Exec(rest, t, fuel)
      else if fuel == 0 then Unfinished
      else
        match Exec(body, t, fuel - 1)
        case Done(t') => Exec(p, t', fuel - 1)
        case r => r
  }

  /** What the machine does on the text of p in the middle of a source, against the meaning of p. */
  ghost predicate Agrees(src: string, start: nat, end: nat, t: Tape, r: Result, fuel: nat, n: nat) {
    match r
    case Done(t') => Steps(src, At(start, t), n) == At(end, t')
    case Bad => Steps(src, At(start, t), n) == Fault
    case Unfinished => n >= fuel && Steps(src, At(start, t), n).At? && Steps(src, At(start, t), n).pc < |src|
  }

  lemma AgreesLater(src: string, start: nat, t: Tape, n: nat, mid: nat,
                    t': Tape, end: nat, r: Result, fuel: nat, m: nat)
    requires Steps(src, At(start, t), n) == At(mid, t') && Agrees(src, mid, end, t', r, fuel, m)
    ensures Agrees(src, start, end, t, r, fuel, n + m)
  {
    StepsAdd(src, At(start, t), n, m);
  }

  lemma {:induction false} Simulate(pre: string, p: Prog, post: string, src: string, t: Tape, fuel: nat)
    returns (n: nat)
    requires Plain(p) && src == pre + Print(p) + post
    ensures Agrees(src, |pre|, |pre| + |Print(p)|, t, Exec(p, t, fuel), fuel, n)
    decreases fuel, p
  {
    match p
    case Skip => n := 0;
    case Do(c, rest) =>
      assert src[|pre|] == c;
      match Effect(c, t) {
        case OutOfRange =>
          n := 1;
          assert Steps(src, At(|pre|, t), 1) == Steps(src, Step(src, At(|pre|, t)), 0);
        case Ok(t') =>
          assert src == (pre + [c]) + Print(rest) + post;
          var m := Simulate(pre + [c], rest, post, src, t', fuel);
          assert Steps(src, At(|pre|, t), 1) == Steps(src, Step(src, At(|pre|, t)), 0);
          AgreesLater(src, |pre|, t, 1, |pre| + 1, t', |pre| + |Print(p)|, Exec(rest, t', fuel), fuel, m);
          n := 1 + m;
      }
    case Loop(body, rest) =>
      n := SimulateLoop(pre, p, post, src, t, fuel);
  }

  lemma LoopShape(pre: string, p: Prog, post: string, src: string)
    requires Plain(p) && src == pre + Print(p) + post && p.Loop?
    ensures var b, r := Print(p.body), Print(p.rest); var i, e := |pre|, |pre| + |b| + 2;
      && Plain(p.body) && Plain(p.rest) && |Print(p)| == |b| + 2 + |r| && e <= |src|
      && src == (pre + "[" + b + "]") + r + post && src == (pre + "[") + b + ("]" + r + post)
      && Partner(src, i, e) && src[i] == '[' && src[e - 1] == ']' && Forward(src, i) == e &&
        Backward(src, e - 1) == i + 1
  {
    hide Partner, Depth, Balanced, Forward, Backward;
    var b, r := Print(p.body), Print(p.rest);
    PrintBalanced(p.body);
    Regroup(pre, b, r, post, src);
    LoopPartner(pre, b, r + post, src);
    JumpsTo(src, |pre|, |pre| + |b| + 2);
  }

  lemma Regroup(pre: string, b: string, r: string, post: string, src: string)
    requires src == pre + ("[" + b + "]" + r) + post
    ensures src == pre + "[" + b + "]" + (r + post) && src == (pre + "[" + b + "]") + r + post
    ensures src == (pre + "[") + b + ("]" + r + post)
    ensures |src| == |pre| + |b| + 2 + |r| + |post| && src[|pre|] == '[' && src[|pre| + |b| + 1] == ']'
  {
  }

  lemma {:induction false} SimulateLoop(pre: string, p: Prog, post: string, src: string, t: Tape, fuel: nat)
    returns (n: nat)
    requires Plain(p) && src == pre + Print(p) + post && p.Loop?
    ensures Agrees(src, |pre|, |pre| + |Print(p)|, t, Exec(p, t, fuel), fuel, n)
    decreases fuel, p, 0
  {
    hide Print, Partner, Effect, Forward, Backward, Depth;
    var b, r := Print(p.body), Print(p.rest);
    var i, e, end := |pre|, |pre| + |b| + 2, |pre| + |Print(p)|;
    LoopShape(pre, p, post, src);
    assert Steps(src, At(i, t), 1) == Steps(src, Step(src, At(i, t)), 0);
    if !InRange(t) { return 1; }
    if t.cells[t.ptr] == 0 {
      var m := Simulate(pre + "[" + b + "]", p.rest, post, src, t, fuel);
      AgreesLater(src, i, t, 1, e, t, end, Exec(p.rest, t, fuel), fuel, m);
      return 1 + m;
    }
    if fuel == 0 { return 0; }
    var m := Simulate(pre + "[", p.body, "]" + r + post, src, t, fuel - 1);
    var rb := Exec(p.body, t, fuel - 1);
    if !rb.Done? {
      StepsAdd(src, At(i, t), 1, m);
      return 1 + m;
    }
    StepsAdd(src, At(i, t), 1, m);
    var k := SimulateLoop(pre, p, post, src, rb.tape, fuel - 1);
    Again(src, i, e, end, rb.tape, Exec(p, rb.tape, fuel - 1), fuel - 1, k);
    AgreesLater(src, i, t, 1 + m, e - 1, rb.tape, end, Exec(p, rb.tape, fuel - 1), fuel - 1, k);
    n := 1 + m + k;
  }

  /** From the closing bracket the loop goes on as from the opening one. */
  lemma Again(src: string, i: nat, e: nat, end: nat, t: Tape, r: Result, fuel: nat, k: nat)
    requires Partner(src, i, e) && end >= e && Agrees(src, i, end, t, r, fuel, k)
    ensures Agrees(src, e - 1, end, t, r, fuel, k)
  {
    JumpsTo(src, i, e);
    if k > 0 { assert Step(src, At(e - 1, t)) == Step(src, At(i, t)); }
  }

  ghost predicate Means(p: Prog, t: Tape, fuel: nat, r: Result) {
    Exec(p, t, fuel) == r
  }

  ghost predicate Reaches(src: string, t: Tape, n: nat, c: Conf) {
    Steps(src, At(0, t), n) == c
  }

  /** On a balanced source the interpreter and the while loops end with the same tape, input and
      output, fault together, and so run forever together. */
  lemma Equivalent(src: string, p: Prog, t: Tape, t': Tape)
    requires Balanced(src) && Plain(p) && Print(p) == src
    ensures (exists fuel :: Means(p, t, fuel, Done(t'))) <==> (exists n :: Reaches(src, t, n, At(|src|, t')))
    ensures (exists fuel :: Means(p, t, fuel, Bad)) <==> (exists n :: Reaches(src, t, n, Fault))
  {
    if fuel :| Means(p, t, fuel, Done(t')) {
      var n := Whole(src, p, t, fuel);
      assert Reaches(src, t, n, At(|src|, t'));
    }
    if fuel :| Means(p, t, fuel, Bad) {
      var n := Whole(src, p, t, fuel);
      assert Reaches(src, t, n, Fault);
    }
    if n :| Reaches(src, t, n, At(|src|, t')) {
      Ends(src, p, t, n);
      assert Means(p, t, n, Done(t'));
    }
    if n :| Reaches(src, t, n, Fault) {
      Ends(src, p, t, n);
      assert Means(p, t, n, Bad);
    }
  }

  lemma Whole(src: string, p: Prog, t: Tape, fuel: nat) returns (n: nat)
    requires Plain(p) && Print(p) == src
    ensures Agrees(src, 0, |src|, t, Exec(p, t, fuel), fuel, n)
  {
    assert src == [] + Print(p) + [];
    n := Simulate([], p, [], src, t, fuel);
  }

  /** The machine stopped after n steps with what p gives. */
  ghost predicate Matched(src: string, p: Prog, t: Tape, n: nat) {
    match Exec(p, t, n)
    case Done(t') => Steps(src, At(0, t), n) == At(|src|, t')
    case Bad => Steps(src, At(0, t), n) == Fault
    case Unfinished => false
  }

  /** If the machine stops within n steps, n is enough for the while loops. */
  lemma Ends(src: string, p: Prog, t: Tape, n: nat)
    requires Plain(p) && Print(p) == src && Stopped(src, Steps(src, At(0, t), n))
    ensures Matched(src, p, t, n)
  {
    var m := Whole(src, p, t, n);
    var c := At(0, t);
    if m >= n {
      StepsAdd(src, c, n, m - n);
      StoppedStays(src, Steps(src, c, n), m - n);
    } else {
      StepsAdd(src, c, m, n - m);
      StoppedStays(src, Steps(src, c, m), n - m);
    }
  }
}
