/** Page-table entries.

    A 64-bit word is split at bits 12 and 52, where x86-64 separates the flag bits from the
    frame address: `low` holds bits 0-11, `frame` bits 12-51 and `high` bits 52-63.  Every
    word is one such triple, so the type also serves for the contents of data pages.
  */
module Pte {
  type FrameNo = n: nat | n < 0x100_0000_0000

  datatype Word = Word(high: bv12, frame: FrameNo, low: bv12)

  /** The flag bits of a word, which is what `entry_flags` keeps. */
  datatype Flags = Flags(high: bv12, low: bv12)

  const PRESENT: bv12 := 0x1
  const WRITABLE: bv12 := 0x2
  const USER: bv12 := 0x4
  const EXECUTABLE: bv12 := 0x200
  const NO_EXECUTE: bv12 := 0x800 // bit 63, in `high`
  const ZERO := Word(0, 0, 0)

  function EntryFlags(e: Word): Flags { Flags(e.high, e.low) }

  /** An aligned frame address or-ed with flag bits. */
  function Pack(f: FrameNo, flags: Flags): Word { Word(flags.high, f, flags.low) }

  predicate Present(f: Flags) { f.low & PRESENT == PRESENT }
  predicate Writable(f: Flags) { f.low & WRITABLE != 0 }
  predicate User(f: Flags) { f.low & USER != 0 }
  predicate Executable(f: Flags) { f.low & EXECUTABLE != 0 }
  predicate NoExecute(f: Flags) { f.high & NO_EXECUTE != 0 }
  predicate IsPresent(e: Word) { Present(EntryFlags(e)) }

  function NormalizeLeafFlags(higher: bool, flags: Flags): Flags {
    var leaf := flags.(low := flags.low & !EXECUTABLE);
    var leaf1 := if higher then leaf.(low := leaf.low & !USER) else leaf;
    if higher && !Executable(flags) then leaf1.(high := leaf1.high | NO_EXECUTE)
    else if Executable(flags) then leaf1.(high := leaf1.high & !NO_EXECUTE)
    else leaf1
  }

  function NormalizeTableFlags(higher: bool, flags: Flags): Flags {
    var table := PRESENT | WRITABLE;
    var table1 := if User(flags) && !higher then table | USER else table;
    Flags(if higher && !Executable(flags) then NO_EXECUTE else 0, table1)
  }

  function ClearNx(e: Word, flags: Flags): Word {
    if Executable(flags) && NoExecute(EntryFlags(e)) then e.(high := e.high & !NO_EXECUTE) else e
  }

  function SetUserAccess(e: Word, higher: bool, flags: Flags): Word {
    if !User(flags) || higher || User(EntryFlags(e)) then e else e.(low := e.low | USER)
  }

  function FlagsToMappingRequest(flags: Flags): Flags {
    if !NoExecute(flags) then flags.(low := flags.low | EXECUTABLE) else flags
  }

  /** Lower-half leaf flags: the software EXECUTABLE bit is dropped and overrides NO_EXECUTE. */
  lemma LowerLeafFlags(flags: Flags)
    ensures var n := NormalizeLeafFlags(false, flags);
      && Present(n) == Present(flags) && Writable(n) == Writable(flags) && User(n) == User(flags)
      && !Executable(n) && NoExecute(n) == (NoExecute(flags) && !Executable(flags))
  {
  }

  /** Upper-half leaf flags: never for the user, and no-execute unless asked for. */
  lemma UpperLeafFlags(flags: Flags)
    ensures var n := NormalizeLeafFlags(true, flags);
      && Present(n) == Present(flags) && Writable(n) == Writable(flags) && !User(n)
      && !Executable(n) && NoExecute(n) == !Executable(flags)
  {
  }

  /** What every table entry on the way to a lower-half page satisfies: it is present and
      takes no permission away except, possibly, user access. */
  predicate Passes(e: Word) {
    IsPresent(e) && Writable(EntryFlags(e)) && !NoExecute(EntryFlags(e))
  }

  lemma NewTableEntry(f: FrameNo, flags: Flags)
    ensures var e := Pack(f, NormalizeTableFlags(false, flags));
      Passes(e) && e.frame == f && User(EntryFlags(e)) == User(flags)
  {
  }

  /** Passing through an existing lower-half table entry can only widen its permissions. */
  lemma TouchedTableEntry(e: Word, flags: Flags)
    requires Passes(e)
    ensures var e' := SetUserAccess(ClearNx(e, flags), false, flags);
      Passes(e') && e'.frame == e.frame && User(EntryFlags(e')) == (User(EntryFlags(e)) || User(flags))
  {
  }

  lemma RequestKeepsUser(flags: Flags)
    ensures User(FlagsToMappingRequest(flags)) == User(flags)
  {
  }

  lemma ZeroNotPresent()
    ensures !IsPresent(ZERO)
  {
  }
}
