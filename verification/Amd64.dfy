/** AMD64 page-table entries: 4 KiB and 2 MiB pages, 48-bit addresses, four levels. */
module Amd64 {
  import opened Options
  import opened Radix
  import opened PageTables
  import Tlb

  const PRESENT: Word := 0x1
  const WRITABLE: Word := 0x2
  const USER: Word := 0x4
  const LARGE: Word := 0x80
  const NO_EXECUTE: Word := 0x8000_0000_0000_0000
  const LINK: Word := 0x7                          // present, writable, user
  const ADDR: Word := 0x000F_FFFF_FFFF_F000
  const PAGE_OFFSET: Word := 0xFFF
  const LARGE_OFFSET: Word := 0x1F_FFFF
  const GIANT_OFFSET: Word := 0x3FFF_FFFF
  const PERMISSIONS: Word := 0x8000_0000_0000_0007

  const USER_BEGIN: Word := 0x80_0000_0000
  const USER_END: Word := 0x8000_0000_0000

  predicate UserRange(address: Word, size: Word) {
    address >= USER_BEGIN && address < USER_END && size <= USER_END - address
  }

  function KindOf(rest: nat, w: Word): Kind<Word> {
    if w & PRESENT == 0 then Hole
    else if rest == 1 || (rest < 4 && w & LARGE != 0) then Leaf
    else Table(w & ADDR)
  }

  /** In private tables there are no 1 GiB pages and every link grants everything. */
  predicate EntryOk(h: Home<Word>, i: Word, w: Word) {
    h.root == None || (h.prefix == [] && i == 0) || w & PRESENT == 0 || |h.prefix| > 2
    || (|h.prefix| == 2 && w & LARGE != 0)
    || w & (LINK | LARGE) == LINK
  }

  /** The first top-level slot holds the identity map that every root shares. */
  const FORMAT: Format<Word> :=
    Format(4, 0, (rest, w) => KindOf(rest, w), i => i == 0, (h: Home<Word>, i, w) => EntryOk(h, i, w), false)

  function Pml4Index(virt: Word): Word { (virt >> 39) & 0x1FF }
  function PdptIndex(virt: Word): Word { (virt >> 30) & 0x1FF }
  function PdIndex(virt: Word): Word { (virt >> 21) & 0x1FF }
  function PtIndex(virt: Word): Word { (virt >> 12) & 0x1FF }

  function PathOf(virt: Word): Path<Word> {
    [Pml4Index(virt), PdptIndex(virt), PdIndex(virt), PtIndex(virt)]
  }

  // ---- The flat view ------------------------------------------------------

  /** What one 4 KiB page is mapped to, whatever the size of the entry behind it. */
  datatype Pte = Pte(frame: Word, attributes: Word)

  function Attributes(w: Word): Word {
    w & !ADDR & !LARGE
  }

  predicate IsPath(p: Path<Word>) {
    |p| == 4 && p[0] < 512 && p[1] < 512 && p[2] < 512 && p[3] < 512
  }

  function PteOf(o: Outcome<Word>, p: Path<Word>): Option<Pte>
    requires |p| == 4
  {
    match o
    case Fault => None
    case Hit(rest, _, w) =>
      if rest == 1 then Some(Pte(w & ADDR, w & !ADDR))
      else if rest == 2 then Some(Pte((w & ADDR & !LARGE_OFFSET) | (p[3] << 12), Attributes(w)))
      else Some(Pte((w & ADDR & !GIANT_OFFSET) | (p[2] << 21) | (p[3] << 12), Attributes(w)))
  }

  ghost function View(mem: Memory<Word>, root: Word, p: Path<Word>): Option<Pte>
    requires |p| == 4
  {
    PteOf(Walk(FORMAT, mem, root, p), p)
  }

  ghost predicate SameViews(spaces: set<Word>, m: Memory<Word>, n: Memory<Word>) {
    forall r, p :: r in spaces && IsPath(p) ==> View(n, r, p) == View(m, r, p)
  }

  lemma SameWalksSameViews(spaces: set<Word>, m: Memory<Word>, n: Memory<Word>)
    requires Tlb.SameWalks(FORMAT, spaces, m, n)
    ensures SameViews(spaces, m, n)
  {
    forall r, p | r in spaces && IsPath(p)
      ensures View(n, r, p) == View(m, r, p)
    {
      assert Tlb.IsAddress(FORMAT, p);
    }
  }

  /** Paths are the page numbers of the 48-bit address space. */
  lemma PathsArePages(u: Word, v: Word)
    requires u < 0x1_0000_0000_0000 && v < 0x1_0000_0000_0000
    ensures IsPath(PathOf(u))
    ensures PathOf(u) == PathOf(v) <==> u >> 12 == v >> 12
  {
    if PathOf(u) == PathOf(v) {
      assert PathOf(u)[0] == PathOf(v)[0] && PathOf(u)[1] == PathOf(v)[1];
      assert PathOf(u)[2] == PathOf(v)[2] && PathOf(u)[3] == PathOf(v)[3];
      SamePage(u, v);
    } else if u >> 12 == v >> 12 {
      SameIndices(u, v);
    }
  }

  lemma SamePage(u: Word, v: Word)
    requires u < 0x1_0000_0000_0000 && v < 0x1_0000_0000_0000
    requires Pml4Index(u) == Pml4Index(v) && PdptIndex(u) == PdptIndex(v) && PdIndex(u) == PdIndex(v) && PtIndex(u) == PtIndex(v)
    ensures u >> 12 == v >> 12
  {
  }

  lemma SameIndices(u: Word, v: Word)
    requires u < 0x1_0000_0000_0000 && v < 0x1_0000_0000_0000
    requires u >> 12 == v >> 12
    ensures Pml4Index(u) == Pml4Index(v) && PdptIndex(u) == PdptIndex(v) && PdIndex(u) == PdIndex(v) && PtIndex(u) == PtIndex(v)
  {
  }

  lemma UserIsPrivate(virt: Word)
    requires UserRange(virt, 1)
    ensures Pml4Index(virt) != 0 && !FORMAT.shared(PathOf(virt)[0])
  {
  }
}
