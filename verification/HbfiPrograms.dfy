/** What programs print: the commands of the interpreter, seen through whole runs of source texts. */
module HbfiPrograms {
  import opened Hbfi

  function Repeat(c: char, k: nat): string {
    seq(k, _ => c)
  }

  /** The tape of a new run. */
  function Fresh(input: seq<Byte>): Tape {
    Tape(seq(CELLS, _ => 0), 0, input, [])
  }

  /** The source has c at the k places from i on. */
  ghost predicate Has(src: string, i: nat, k: nat, c: char) {
    i + k <= |src| && forall j :: i <= j < i + k ==> src[j] == c
  }

  function Cell(t: Tape): Byte
    requires InRange(t)
  {
    t.cells[t.ptr]
  }

  lemma OneStep(src: string, c: Conf)
    ensures Steps(src, c, 1) == Step(src, c)
  {
    assert Steps(src, Step(src, c), 0) == Step(src, c);
  }

  /** k increments add k to the cell, modulo 256. */
  lemma {:induction false} Plus(src: string, i: nat, k: nat, t: Tape)
    requires Has(src, i, k, '+') && InRange(t)
    ensures Steps(src, At(i, t), k) == At(i + k, t.(cells := t.cells[t.ptr := (Cell(t) + k) % 256]))
    decreases k
  {
    if k == 0 {
      assert t.cells[t.ptr := Cell(t)] == t.cells;
    } else {
      var b: Byte := (Cell(t) + 1) % 256;
      var t1 := t.(cells := t.cells[t.ptr := b]);
      assert Step(src, At(i, t)) == At(i + 1, t1);
      Plus(src, i + 1, k - 1, t1);
      assert (b + (k - 1)) % 256 == (Cell(t) + k) % 256;
      assert t1.cells[t.ptr := (Cell(t) + k) % 256] == t.cells[t.ptr := (Cell(t) + k) % 256];
    }
  }

  /** k decrements take k off the cell, modulo 256. */
  lemma {:induction false} Minus(src: string, i: nat, k: nat, t: Tape)
    requires Has(src, i, k, '-') && InRange(t)
    ensures Steps(src, At(i, t), k) == At(i + k, t.(cells := t.cells[t.ptr := (Cell(t) - k) % 256]))
    decreases k
  {
    if k == 0 {
      assert t.cells[t.ptr := Cell(t)] == t.cells;
    } else {
      var b: Byte := (Cell(t) - 1) % 256;
      var t1 := t.(cells := t.cells[t.ptr := b]);
      assert Step(src, At(i, t)) == At(i + 1, t1);
      Minus(src, i + 1, k - 1, t1);
      assert (b - (k - 1)) % 256 == (Cell(t) - k) % 256;
      assert t1.cells[t.ptr := (Cell(t) - k) % 256] == t.cells[t.ptr := (Cell(t) - k) % 256];
    }
  }

  /** k moves to the right, on any part of the address space. */
  lemma {:induction false} Right(src: string, i: nat, k: nat, t: Tape)
    requires Has(src, i, k, '>') && t.ptr < WORD
    ensures Steps(src, At(i, t), k) == At(i + k, t.(ptr := (t.ptr + k) % WORD))
    decreases k
  {
    if k > 0 {
      var t1 := t.(ptr := (t.ptr + 1) % WORD);
      assert Step(src, At(i, t)) == At(i + 1, t1);
      Right(src, i + 1, k - 1, t1);
      WrapAdd(t.ptr, k);
    }
  }

  lemma {:induction false} Left(src: string, i: nat, k: nat, t: Tape)
    requires Has(src, i, k, '<') && t.ptr < WORD
    ensures Steps(src, At(i, t), k) == At(i + k, t.(ptr := (t.ptr - k) % WORD))
    decreases k
  {
    if k > 0 {
      var t1 := t.(ptr := (t.ptr + WORD - 1) % WORD);
      assert Step(src, At(i, t)) == At(i + 1, t1);
      Left(src, i + 1, k - 1, t1);
      WrapSub(t.ptr, k);
    }
  }

  lemma WrapAdd(p: nat, k: nat)
    requires p < WORD && k > 0
    ensures ((p + 1) % WORD + (k - 1)) % WORD == (p + k) % WORD
  {
    if p + 1 == WORD { assert (p + k) % WORD == (k - 1 + WORD) % WORD; }
  }

  lemma WrapSub(p: nat, k: nat)
    requires p < WORD && k > 0
    ensures ((p + WORD - 1) % WORD - (k - 1)) % WORD == (p - k) % WORD
  {
    if p == 0 {
      assert (WORD - k) % WORD == (0 - k) % WORD;
    } else {
      assert (p + WORD - 1) % WORD == p - 1;
    }
  }

  /** A text of k equal commands and one more. */
  lemma RepeatThen(c: char, k: nat, last: string)
    ensures Has(Repeat(c, k) + last, 0, k, c) && (last != [] ==> (Repeat(c, k) + last)[k] == last[0])
  {
  }

  /** k '+' and a '.' print k, modulo 256. */
  lemma CountsUp(k: nat, input: seq<Byte>, limit: nat)
    requires limit >= k + 1
    ensures var src := Repeat('+', k) + ".";
      var c := Steps(src, At(0, Fresh(input)), limit); c.At? && c.pc == |src| && c.tape.output == [k % 256]
  {
    var src, t := Repeat('+', k) + ".", Fresh(input);
    RepeatThen('+', k, ".");
    Plus(src, 0, k, t);
    Printed(src, k, Steps(src, At(0, t), k).tape);
    Ended(src, At(0, t), k, limit);
  }

  /** k '-' and a '.' print what is missing to a multiple of 256. */
  lemma CountsDown(k: nat, input: seq<Byte>, limit: nat)
    requires limit >= k + 1
    ensures var src := Repeat('-', k) + ".";
      var c := Steps(src, At(0, Fresh(input)), limit);
      c.At? && c.pc == |src| && c.tape.output == [(256 - k % 256) % 256]
  {
    var src, t := Repeat('-', k) + ".", Fresh(input);
    RepeatThen('-', k, ".");
    Minus(src, 0, k, t);
    assert (0 - k) % 256 == (256 - k % 256) % 256;
    Printed(src, k, Steps(src, At(0, t), k).tape);
    Ended(src, At(0, t), k, limit);
  }

  /** A '.' at the end of a source. */
  lemma Printed(src: string, k: nat, t: Tape)
    requires |src| == k + 1 && src[k] == '.' && InRange(t)
    ensures Step(src, At(k, t)) == At(|src|, t.(output := t.output + [Cell(t)]))
  {
  }

  /** The last instruction of a source, and nothing after it. */
  lemma Ended(src: string, c: Conf, k: nat, limit: nat)
    requires limit >= k + 1 && Stopped(src, Step(src, Steps(src, c, k)))
    ensures Steps(src, c, limit) == Step(src, Steps(src, c, k))
  {
    StepsAdd(src, c, k, 1);
    OneStep(src, Steps(src, c, k));
    StepsAdd(src, c, k + 1, limit - k - 1);
    StoppedStays(src, Steps(src, c, k + 1), limit - k - 1);
  }

  /** ",." prints the first byte of the input and consumes it; at the end of the input it prints 255. */
  lemma Echo(input: seq<Byte>, limit: nat)
    requires limit >= 2
    ensures var c := Steps(",.", At(0, Fresh(input)), limit);
      && c.At? && c.pc == 2 && c.tape.output == [if input == [] then 255 else input[0]]
      && c.tape.input == if input == [] then [] else input[1..]
  {
    var t := Fresh(input);
    OneStep(",.", At(0, t));
    Ended(",.", At(0, t), 1, limit);
  }

  /** k '>' and k '<' change nothing. */
  lemma ThereAndBack(k: nat, t: Tape)
    requires t.ptr < WORD
    ensures Steps(Repeat('>', k) + Repeat('<', k), At(0, t), k + k) == At(k + k, t)
  {
    var src := Repeat('>', k) + Repeat('<', k);
    var t1 := t.(ptr := (t.ptr + k) % WORD);
    Right(src, 0, k, t);
    Left(src, k, k, t1);
    StepsAdd(src, At(0, t), k, k);
    Wraps(t.ptr, k);
  }

  lemma Wraps(p: nat, k: nat)
    requires p < WORD
    ensures ((p + k) % WORD - k) % WORD == p
  {
    var q := (p + k) / WORD;
    assert (p + k) % WORD - k == p + WORD * (-q);
    Multiple(p, -q);
  }

  lemma {:induction false} Multiple(p: nat, q: int)
    requires p < WORD
    ensures (p + WORD * q) % WORD == p
    decreases if q < 0 then -q else q
  {
    if q > 0 {
      Multiple(p, q - 1);
      assert p + WORD * q == p + WORD * (q - 1) + WORD;
    } else if q < 0 {
      Multiple(p, q + 1);
      assert p + WORD * (q + 1) == p + WORD * q + WORD;
    }
  }

  /** An increment after k '>' changes that cell and no other, and is outside the tape exactly if there are
      not so many cells. */
  lemma RightPlus(k: nat, input: seq<Byte>)
    ensures var c := Steps(Repeat('>', k) + "+", At(0, Fresh(input)), k + 1); var p := k % WORD;
      if p < CELLS then c == At(k + 1, Fresh(input).(ptr := p, cells := Fresh(input).cells[p := 1])) else c == Fault
  {
    var src, t := Repeat('>', k) + "+", Fresh(input);
    RepeatThen('>', k, "+");
    Right(src, 0, k, t);
    StepsAdd(src, At(0, t), k, 1);
    OneStep(src, Steps(src, At(0, t), k));
  }

  /** Every other character is skipped. */
  lemma Comment(src: string, i: nat, t: Tape)
    requires i < |src| && src[i] !in {'+', '-', '.', ',', '<', '>', '[', ']'}
    ensures Step(src, At(i, t)) == At(i + 1, t)
  {
  }

  // A loop.

  const ADDER := "[->+<]"

  lemma AdderJumps()
    ensures Forward(ADDER, 0) == 6 && Backward(ADDER, 5) == 1
  {
    var b := "->+<";
    assert ADDER == [] + "[" + b + "]" + [];
    var p := Do('-', Do('>', Do('+', Do('<', Skip))));
    assert Print(p) == b;
    PrintBalanced(p);
    LoopPartner([], b, [], ADDER);
    JumpsTo(ADDER, 0, 6);
  }

  /** One iteration, from the bracket that opens the loop to the one that closes it. */
  lemma AdderRound(t: Tape)
    requires t.ptr + 1 < |t.cells| && t.ptr + 1 < WORD && Cell(t) != 0
    ensures var t' := t.(cells := t.cells[t.ptr := Cell(t) - 1][t.ptr + 1 := Inc(t.cells[t.ptr + 1])]);
      Steps(ADDER, At(0, t), 5) == At(5, t')
  {
    hide Forward, Backward, Effect, Step, Steps, Inc;
    var t1 := t.(cells := t.cells[t.ptr := Cell(t) - 1]);
    var t2 := t1.(ptr := t.ptr + 1);
    var t3 := t2.(cells := t2.cells[t2.ptr := Inc(Cell(t2))]);
    Enters(ADDER, 0, t);
    AdderCommands(t, t2);
    Five(ADDER, At(0, t), At(1, t), At(2, t1), At(3, t2), At(4, t3), At(5, t3.(ptr := t.ptr)));
  }

  lemma AdderCommands(t: Tape, t2: Tape)
    requires InRange(t) && InRange(t2) && t.ptr + 1 < WORD && t2.ptr == t.ptr + 1 && Cell(t) != 0
    ensures Step(ADDER, At(1, t)) == At(2, t.(cells := t.cells[t.ptr := Cell(t) - 1]))
    ensures forall cells :: Step(ADDER, At(2, t.(cells := cells))) == At(3, t.(cells := cells, ptr := t.ptr + 1))
    ensures Step(ADDER, At(3, t2)) == At(4, t2.(cells := t2.cells[t2.ptr := Inc(Cell(t2))]))
    ensures forall cells :: Step(ADDER, At(4, t2.(cells := cells))) == At(5, t2.(cells := cells, ptr := t.ptr))
  {
    hide Forward, Backward;
    assert ADDER[1] == '-' && ADDER[2] == '>' && ADDER[3] == '+' && ADDER[4] == '<' && |ADDER| == 6;
  }

  lemma Five(src: string, c0: Conf, c1: Conf, c2: Conf, c3: Conf, c4: Conf, c5: Conf)
    requires Step(src, c0) == c1 && Step(src, c1) == c2 && Step(src, c2) == c3
    requires Step(src, c3) == c4 && Step(src, c4) == c5
    ensures Steps(src, c0, 5) == c5
  {
    hide Step;
    assert Steps(src, c0, 5) == Steps(src, c1, 4) == Steps(src, c2, 3) == Steps(src, c3, 2);
    OneStep(src, c4);
  }

  lemma Enters(src: string, i: nat, t: Tape)
    requires i < |src| && src[i] == '[' && InRange(t) && Cell(t) != 0
    ensures Step(src, At(i, t)) == At(i + 1, t)
  {
  }

  /** "[->+<]" adds the cell to the one on its right, modulo 256, and leaves zero; from either bracket. */
  lemma {:induction false} Adder(t: Tape, start: nat)
    requires t.ptr + 1 < |t.cells| && t.ptr + 1 < WORD && (start == 0 || start == 5)
    ensures var sum := (Cell(t) + t.cells[t.ptr + 1]) % 256;
      Steps(ADDER, At(start, t), 5 * Cell(t) + 1) == At(6, t.(cells := t.cells[t.ptr := 0][t.ptr + 1 := sum]))
    decreases Cell(t)
  {
    AdderJumps();
    hide Forward, Backward, Effect;
    var a: int, b: int := Cell(t), t.cells[t.ptr + 1];
    assert Step(ADDER, At(start, t)) == At(if a != 0 then 1 else 6, t);
    OneStep(ADDER, At(start, t));
    if a == 0 {
      assert t.cells[t.ptr := 0][t.ptr + 1 := b] == t.cells;
    } else {
      var t' := t.(cells := t.cells[t.ptr := a - 1][t.ptr + 1 := Inc(b)]);
      AdderRound(t);
      assert Step(ADDER, At(start, t)) == Step(ADDER, At(0, t));
      assert Steps(ADDER, At(start, t), 5) == Steps(ADDER, At(0, t), 5);
      Adder(t', 5);
      assert Cell(t') == a - 1 && t'.cells[t.ptr + 1] == Inc(b);
      StepsAdd(ADDER, At(start, t), 5, 5 * (a - 1) + 1);
      var sum := (a + b) % 256;
      assert t'.cells[t.ptr := 0][t.ptr + 1 := sum] == t.cells[t.ptr := 0][t.ptr + 1 := sum];
    }
  }
}
