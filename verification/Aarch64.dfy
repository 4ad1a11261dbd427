/** AArch64 descriptors: 4 KiB granule, 39-bit addresses, three levels. */
module Aarch64 {
  import opened Options
  import opened Radix
  import opened PageTables
  import Tlb

  const VALID: Word := 0x1
  const TABLE: Word := 0x2                        // at the last level: a page
  const ADDR: Word := 0x0000_FFFF_FFFF_F000
  const BLOCK_OFFSET: Word := 0x1F_FFFF
  const PAGE_OFFSET: Word := 0xFFF
  const NORMAL: Word := 0x4                       // memory attribute index 1
  const AP_USER: Word := 0x40
  const AP_READ_ONLY: Word := 0x80
  const SH_INNER: Word := 0x300
  const ACCESSED: Word := 0x400
  const PXN: Word := 0x0020_0000_0000_0000
  const UXN: Word := 0x0040_0000_0000_0000
  const PERMISSIONS: Word := 0x0060_0000_0000_00C0

  const FLAG_WRITABLE: Word := 0x2
  const FLAG_USER: Word := 0x4
  const FLAG_NO_EXECUTE: Word := 0x8000_0000_0000_0000

  const USER_BEGIN: Word := 0x1_0000_0000
  const USER_END: Word := 0x80_0000_0000

  predicate UserRange(address: Word, size: Word) {
    address >= USER_BEGIN && address < USER_END && size <= USER_END - address
  }

  function KindOf(rest: nat, w: Word): Kind<Word> {
    if w & VALID == 0 then Hole
    else if rest == 1 then if w & TABLE == 0 then Hole else Leaf
    else if w & TABLE == 0 then Leaf
    else Table(w & ADDR)
  }

  /** No 1 GiB blocks, last-level entries are pages, and links carry no further restrictions. */
  predicate EntryOk(depth: nat, w: Word) {
    && (depth != 1 ==> w & 3 != VALID)
    && (depth < 2 && w & 3 == 3 ==> w == (w & ADDR) | 3)
  }

  /** The first four top-level slots hold the identity map that every root shares. */
  const FORMAT: Format<Word> :=
    Format(3, 0, (rest, w) => KindOf(rest, w), i => i < 4, (h: Home<Word>, i, w) => EntryOk(|h.prefix|, w), true)

  function FlagsToDesc(flags: Word): Word {
    var base := ACCESSED | SH_INNER | NORMAL;
    var access :=
      if flags & FLAG_USER != 0 then if flags & FLAG_WRITABLE != 0 then AP_USER else AP_USER | AP_READ_ONLY
      else (if flags & FLAG_WRITABLE != 0 then 0 else AP_READ_ONLY) | UXN;
    base | access | (if flags & FLAG_NO_EXECUTE != 0 then UXN | PXN else 0)
  }

  function L1(virt: Word): Word { (virt >> 30) & 0x1FF }
  function L2(virt: Word): Word { (virt >> 21) & 0x1FF }
  function L3(virt: Word): Word { (virt >> 12) & 0x1FF }

  function PathOf(virt: Word): Path<Word> {
    [L1(virt), L2(virt), L3(virt)]
  }

  // ---- The flat view ------------------------------------------------------

  /** What one 4 KiB page is mapped to, whatever the size of the descriptor behind it. */
  datatype Pte = Pte(frame: Word, attributes: Word)

  function Attributes(w: Word): Word {
    w & !ADDR & !TABLE
  }

  /** The indices of some virtual address. */
  predicate IsPath(p: Path<Word>) {
    |p| == 3 && p[0] < 512 && p[1] < 512 && p[2] < 512
  }

  function PteOf(o: Outcome<Word>, p: Path<Word>): Option<Pte>
    requires |p| == 3
  {
    match o
    case Fault => None
    case Hit(rest, _, w) =>
      if rest == 1 then Some(Pte(w & ADDR, Attributes(w)))
      else Some(Pte((w & ADDR & !BLOCK_OFFSET) | (p[2] << 12), Attributes(w)))
  }

  ghost function View(mem: Memory<Word>, root: Word, p: Path<Word>): Option<Pte>
    requires |p| == 3
  {
    PteOf(Walk(FORMAT, mem, root, p), p)
  }

  ghost predicate SameViews(spaces: set<Word>, m: Memory<Word>, n: Memory<Word>) {
    forall r, p :: r in spaces && IsPath(p) ==> View(n, r, p) == View(m, r, p)
  }

  lemma SameWalksSameViews(spaces: set<Word>, m: Memory<Word>, n: Memory<Word>)
    requires Tlb.SameWalks(FORMAT, spaces, m, n)
    ensures SameViews(spaces, m, n)
  {
    forall r, p | r in spaces && IsPath(p)
      ensures View(n, r, p) == View(m, r, p)
    {
      assert Tlb.IsAddress(FORMAT, p);
    }
  }

  /** Paths are the page numbers of the 39-bit address space. */
  lemma PathsArePages(u: Word, v: Word)
    requires u < 0x80_0000_0000 && v < 0x80_0000_0000
    ensures IsPath(PathOf(u))
    ensures PathOf(u) == PathOf(v) <==> u >> 12 == v >> 12
  {
    if PathOf(u) == PathOf(v) {
      assert PathOf(u)[0] == PathOf(v)[0] && PathOf(u)[1] == PathOf(v)[1] && PathOf(u)[2] == PathOf(v)[2];
      SamePage(u, v);
    } else if u >> 12 == v >> 12 {
      SameIndices(u, v);
    }
  }

  lemma SamePage(u: Word, v: Word)
    requires u < 0x80_0000_0000 && v < 0x80_0000_0000
    requires L1(u) == L1(v) && L2(u) == L2(v) && L3(u) == L3(v)
    ensures u >> 12 == v >> 12
  {
  }

  lemma SameIndices(u: Word, v: Word)
    requires u < 0x80_0000_0000 && v < 0x80_0000_0000
    requires u >> 12 == v >> 12
    ensures L1(u) == L1(v) && L2(u) == L2(v) && L3(u) == L3(v)
  {
  }

  lemma KindHole(rest: nat, w: Word)
    requires w & VALID == 0
    ensures FORMAT.kind(rest, w) == Hole
  {
  }

  lemma KindTable(rest: nat, w: Word)
    requires w & VALID != 0 && w & TABLE != 0 && rest > 1
    ensures FORMAT.kind(rest, w) == Table(w & ADDR)
  {
  }

  lemma KindBlock(rest: nat, w: Word)
    requires w & VALID != 0 && w & TABLE == 0 && rest > 1
    ensures FORMAT.kind(rest, w) == Leaf
  {
  }

  lemma KindValid(rest: nat, w: Word)
    requires rest > 1
    ensures FORMAT.kind(rest, w) == Hole <==> w & VALID == 0
  {
  }

  /** The last-level entry that takes over page `j` of block `b`. */
  function SplitWord(b: Word, j: Word): Word {
    ((b & ADDR & !BLOCK_OFFSET) + j * 0x1000) | (b & !ADDR & !TABLE) | VALID | TABLE
  }

  /** Splitting keeps the frame and the attributes of every page of the block. */
  lemma SplitWordKeeps(b: Word, j: Word)
    requires b & 3 == VALID && j < 512
    ensures KindOf(1, SplitWord(b, j)) == Leaf
    ensures SplitWord(b, j) & ADDR == (b & ADDR & !BLOCK_OFFSET) | (j << 12)
    ensures Attributes(SplitWord(b, j)) == Attributes(b)
  {
  }

  lemma UserIsPrivate(virt: Word)
    requires UserRange(virt, 1)
    ensures L1(virt) >= 4
  {
  }
}
