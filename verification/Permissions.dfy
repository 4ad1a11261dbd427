/** From the flags a caller passes, through entry encoding and the tables, to what user code may do. */
module Permissions {
  import opened Options
  import opened Radix
  import opened PageTables

  /** What is done to the pages of one address space. */
  datatype Op =
    | Map(virt: Word, phys: Word, flags: Word)
    | MapLarge(virt: Word, phys: Word, flags: Word)
    | Protect(virt: Word, flags: Word)
    | Unmap(virt: Word)

  /** The tables and the free pages before an operation. */
  datatype Stage = Stage(mem: Memory<Word>, pool: seq<Word>)

  const WRITABLE: Word := 0x2
  const USER: Word := 0x4

  /** The flags grant user code this access. */
  predicate FlagsGrant(flags: Word, write: bool) {
    flags & USER != 0 && (write ==> flags & WRITABLE != 0)
  }

  /** What an operation that succeeds leaves: flags, or nothing after an unmap. */
  function FlagsOf(op: Op): Option<Word> {
    if op.Unmap? then None else Some(op.flags)
  }

  /** What the last operation left that succeeded on the page; `hit` says which did. */
  function Last(ops: seq<Op>, hit: seq<bool>): Option<Option<Word>>
    requires |ops| == |hit|
    decreases |ops|
  {
    if ops == [] then None
    else if hit[|hit| - 1] then Some(FlagsOf(ops[|ops| - 1]))
    else Last(ops[..|ops| - 1], hit[..|hit| - 1])
  }

  lemma LastStep(ops: seq<Op>, hit: seq<bool>, op: Op, h: bool)
    requires |ops| == |hit|
    ensures Last(ops + [op], hit + [h]) == if h then Some(FlagsOf(op)) else Last(ops, hit)
  {
    assert (ops + [op])[..|ops|] == ops && (hit + [h])[..|hit|] == hit;
  }

  lemma Prefix(ops: seq<Op>, i: nat)
    requires i < |ops|
    ensures ops[..i + 1] == ops[..i] + [ops[i]]
  {
  }
}
