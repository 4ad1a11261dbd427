/** The AArch64 virtual memory manager: the routines that edit the page tables. */
module Aarch64Vmm {
  import opened Options
  import opened Radix
  import opened Tlb
  import opened Aarch64
  import opened PageTables

  /** The tables are in this format and in order. */
  ghost predicate Ready(vm: Tables)
    reads vm
  {
    vm.f == FORMAT && vm.Valid()
  }

  /** What was done to the tables since they were `before` is a critical section that can be interleaved with all that
      the other CPUs do, and leaves their caches in agreement. */
  ghost predicate Broadcast(vm: Tables, before: Memory<Word>, root: Word)
    reads vm
  {
    vm.Section(before, root) && (vm.mem == before || Interleaves(FORMAT, vm.spaces, before, vm.log, vm.mem))
  }

  lemma ZeroIsHole()
    ensures ZeroFits(FORMAT)
    ensures forall w: Word :: w & VALID == 0 ==> AlwaysHole(FORMAT, w)
  {
  }

  lemma TableWord(t: Word, rest: nat)
    requires IsPage(t) && rest > 1
    ensures FORMAT.kind(rest, t | VALID | TABLE) == Table(t)
    ensures forall h, i, w :: w == t | VALID | TABLE ==> FORMAT.ok(h, i, w)
  {
  }

  /** `t` is the level-2 table behind `virt` in address space `root`. */
  ghost predicate SecondLevel(mem: Memory<Word>, own: Owners<Word>, root: Word, virt: Word, t: Word) {
    && IsRoot(own, root) && UserRange(virt, 1)
    && FORMAT.kind(3, Read(FORMAT, mem, Slot(root, L1(virt)))) == Table(t)
    && Owned(own, t) && HomeOf(own, t) == Home(Some(root), PathOf(virt)[..1])
  }

  /** `t` is the last-level table behind `virt`. */
  ghost predicate ThirdLevel(mem: Memory<Word>, own: Owners<Word>, root: Word, virt: Word, l2: Word, t: Word) {
    && SecondLevel(mem, own, root, virt, l2)
    && FORMAT.kind(2, Read(FORMAT, mem, Slot(l2, L2(virt)))) == Table(t)
    && Owned(own, t) && HomeOf(own, t) == Home(Some(root), PathOf(virt)[..2])
  }

  lemma SecondKept(m: Memory<Word>, n: Memory<Word>, own: Owners<Word>, later: Owners<Word>, root: Word, virt: Word, l2: Word)
    requires SecondLevel(m, own, root, virt, l2) && OthersKept(FORMAT, own, m, n, Slot(l2, L2(virt)))
    requires IsRoot(later, root) && Owned(later, l2) && HomeOf(later, l2) == HomeOf(own, l2)
    ensures SecondLevel(n, later, root, virt, l2)
  {
    assert root != l2;
    assert Slot(root, L1(virt)) != Slot(l2, L2(virt));
  }

  lemma DescendSecond(mem: Memory<Word>, own: Owners<Word>, root: Word, virt: Word, t: Word)
    requires SecondLevel(mem, own, root, virt, t)
    ensures Reaches(FORMAT, mem, own, root, PathOf(virt), 1, t) && !FORMAT.shared(PathOf(virt)[0])
  {
    UserIsPrivate(virt);
    DescendOne(FORMAT, mem, root, PathOf(virt), 0, root);
  }

  lemma DescendThird(mem: Memory<Word>, own: Owners<Word>, root: Word, virt: Word, l2: Word, t: Word)
    requires ThirdLevel(mem, own, root, virt, l2, t)
    ensures Reaches(FORMAT, mem, own, root, PathOf(virt), 2, t) && !FORMAT.shared(PathOf(virt)[0])
  {
    DescendSecond(mem, own, root, virt, l2);
    DescendOne(FORMAT, mem, root, PathOf(virt), 1, l2);
  }

  ghost predicate SplitBelow(mem: Memory<Word>, t: Word, b: Word, i: Word) {
    forall j: Word :: j < i ==> Read(FORMAT, mem, Slot(t, j)) == SplitWord(b, j)
  }

  lemma SplitBelowNext(mem: Memory<Word>, t: Word, b: Word, i: Word)
    requires SplitBelow(mem, t, b, i) && i < 512
    ensures SplitBelow(mem[Slot(t, i) := SplitWord(b, i)], t, b, i + 1)
  {
    var next := mem[Slot(t, i) := SplitWord(b, i)];
    forall j: Word | j < i + 1
      ensures Read(FORMAT, next, Slot(t, j)) == SplitWord(b, j)
    {
      UpTo(j, i);
    }
  }

  /** One address before and after a block is replaced by a table of its pages. */
  lemma SplitWalk(m: Memory<Word>, own: Owners<Word>, root: Word, virt: Word, l2: Word, l3: Word, p: Path<Word>)
    requires Unshared(FORMAT, m, own) && SecondLevel(m, own, root, virt, l2) && IsPath(p) && PathOf(virt)[..2] <= p
    requires Read(FORMAT, m, Slot(l2, L2(virt))) & 3 == VALID && IsPage(l3) && l3 != l2
    ensures var s, b := Slot(l2, L2(virt)), Read(FORMAT, m, Slot(l2, L2(virt)));
      && Walk(FORMAT, m, root, p) == Hit(2, s, b)
      && Walk(FORMAT, m[s := l3 | VALID | TABLE], root, p) == Walk(FORMAT, m[s := l3 | VALID | TABLE], l3, [p[2]])
  {
    var s, w, path := Slot(l2, L2(virt)), l3 | VALID | TABLE, PathOf(virt);
    var n, b := m[s := w], Read(FORMAT, m, s);
    DescendSecond(m, own, root, virt, l2);
    StoreHits(FORMAT, m, n, own, s, root, path, 1, root, p);
    TableWord(l3, 2);
    KindBlock(2, b);
    assert p[1..][1..] == [p[2]];
  }

  /** A page of the block. */
  lemma SplitPage(m: Memory<Word>, own: Owners<Word>, root: Word, virt: Word, l2: Word, l3: Word, p: Path<Word>)
    requires Unshared(FORMAT, m, own) && SecondLevel(m, own, root, virt, l2) && IsPath(p) && PathOf(virt)[..2] <= p
    requires Read(FORMAT, m, Slot(l2, L2(virt))) & 3 == VALID && IsPage(l3)
    requires SplitBelow(m, l3, Read(FORMAT, m, Slot(l2, L2(virt))), 512) && l3 != l2
    ensures View(m[Slot(l2, L2(virt)) := l3 | VALID | TABLE], root, p) == View(m, root, p)
  {
    var s, b := Slot(l2, L2(virt)), Read(FORMAT, m, Slot(l2, L2(virt)));
    var n := m[s := l3 | VALID | TABLE];
    SplitWalk(m, own, root, virt, l2, l3, p);
    assert Read(FORMAT, n, Slot(l3, p[2])) == SplitWord(b, p[2]);
    SplitWordKeeps(b, p[2]);
  }

  lemma SplitView(m: Memory<Word>, own: Owners<Word>, spaces: set<Word>, root: Word, virt: Word, l2: Word, l3: Word, r: Word, p: Path<Word>)
    requires WellFormed(FORMAT, m, own, spaces) && SecondLevel(m, own, root, virt, l2) && r in spaces && IsPath(p)
    requires Read(FORMAT, m, Slot(l2, L2(virt))) & 3 == VALID && IsPage(l3)
    requires SplitBelow(m, l3, Read(FORMAT, m, Slot(l2, L2(virt))), 512) && l3 != l2
    ensures View(m[Slot(l2, L2(virt)) := l3 | VALID | TABLE], r, p) == View(m, r, p)
  {
    var s, w, path := Slot(l2, L2(virt)), l3 | VALID | TABLE, PathOf(virt);
    var n := m[s := w];
    if r == root && path[..2] <= p {
      SplitPage(m, own, root, virt, l2, l3, p);
    } else {
      DescendSecond(m, own, root, virt, l2);
      SeesDescend(FORMAT, m, own, spaces, root, path, 1, l2, r);
      StoreMisses(FORMAT, m, n, own, s, root, path, 1, r, p);
    }
  }

  /** A filled page takes the place of the block it was filled from. */
  lemma SplitFits(m: Memory<Word>, own: Owners<Word>, spaces: set<Word>, root: Word, virt: Word, l2: Word, l3: Word)
    requires WellFormed(FORMAT, m, own, spaces) && SecondLevel(m, own, root, virt, l2) && !Owned(own, l3) && IsPage(l3)
    requires Read(FORMAT, m, Slot(l2, L2(virt))) & 3 == VALID
    requires SplitBelow(m, l3, Read(FORMAT, m, Slot(l2, L2(virt))), 512)
    ensures var n := m[Slot(l2, L2(virt)) := l3 | VALID | TABLE];
      && WellFormed(FORMAT, n, Extend(own, l3, Home(Some(root), PathOf(virt)[..2])), spaces)
      && SameViews(spaces, m, n)
      && ThirdLevel(n, Extend(own, l3, Home(Some(root), PathOf(virt)[..2])), root, virt, l2, l3)
  {
    var s, w, h := Slot(l2, L2(virt)), l3 | VALID | TABLE, Home(Some(root), PathOf(virt)[..2]);
    var n, b := m[s := w], Read(FORMAT, m, s);
    assert h == Child(FORMAT, HomeOf(own, l2), s.index);
    TableWord(l3, 2);
    forall i
      ensures !FORMAT.kind(1, Read(FORMAT, m, Slot(l3, i))).Table? && FORMAT.ok(h, i, Read(FORMAT, m, Slot(l3, i)))
    {
      SplitEntryFits(m, l3, b, i, h);
    }
    LinkUnshared(FORMAT, m, own, s, w, l3);
    RootsExtend(own, spaces, l3, h);
    forall r, p | r in spaces && IsPath(p)
      ensures View(n, r, p) == View(m, r, p)
    {
      SplitView(m, own, spaces, root, virt, l2, l3, r, p);
    }
  }

  lemma SplitEntryFits(m: Memory<Word>, l3: Word, b: Word, i: Word, h: Home<Word>)
    requires (forall s :: s in m ==> s.index < 512) && SplitBelow(m, l3, b, 512) && b & 3 == VALID && |h.prefix| == 2
    ensures !FORMAT.kind(1, Read(FORMAT, m, Slot(l3, i))).Table? && FORMAT.ok(h, i, Read(FORMAT, m, Slot(l3, i)))
  {
    if i < 512 {
      SplitWordKeeps(b, i);
    } else {
      assert Slot(l3, i) !in m;
    }
  }

  // ---- Leaf edits ---------------------------------------------------------

  /** `n` translates as `m` does, except that page `path` of `root` is now `pte`. */
  ghost predicate PageUpdated(spaces: set<Word>, m: Memory<Word>, n: Memory<Word>, root: Word, path: Path<Word>, pte: Option<Pte>) {
    forall r, p :: r in spaces && IsPath(p) ==> View(n, r, p) == if r == root && p == path then pte else View(m, r, p)
  }

  /** `n` translates as `m` does, except that the pages of one 2 MiB block of `root` now go through word `w`. */
  ghost predicate BlockUpdated(spaces: set<Word>, m: Memory<Word>, n: Memory<Word>, root: Word, path: Path<Word>, w: Word) {
    |path| == 3 &&
    forall r, p :: r in spaces && IsPath(p) ==>
      View(n, r, p) == if r == root && p[0] == path[0] && p[1] == path[1] then BlockPte(w, p) else View(m, r, p)
  }

  /** What the pages of a block descriptor, or of an empty one, are mapped to. */
  function BlockPte(w: Word, p: Path<Word>): Option<Pte>
    requires |p| == 3
  {
    if w & VALID == 0 then None else Some(Pte((w & ADDR & !BLOCK_OFFSET) | (p[2] << 12), Attributes(w)))
  }

  function PagePte(w: Word): Option<Pte> {
    if w & VALID == 0 then None else Some(Pte(w & ADDR, Attributes(w)))
  }

  /** A last-level entry: a page or nothing. */
  predicate IsPageEntry(w: Word) {
    w & 3 == 3 || w & VALID == 0
  }

  /** A level-2 entry that is not a table. */
  predicate IsBlockEntry(w: Word) {
    w & TABLE == 0
  }

  lemma PageEntryOutcome(s: Slot<Word>, w: Word, p: Path<Word>, h: Home<Word>)
    requires IsPageEntry(w) && |p| == 3 && |h.prefix| == 2
    ensures PteOf(LeafOutcome(FORMAT, 1, s, w), p) == PagePte(w) && !FORMAT.kind(1, w).Table? && FORMAT.ok(h, s.index, w)
  {
  }

  lemma BlockEntryOutcome(s: Slot<Word>, w: Word, p: Path<Word>, h: Home<Word>)
    requires IsBlockEntry(w) && |p| == 3 && |h.prefix| == 1
    ensures PteOf(LeafOutcome(FORMAT, 2, s, w), p) == BlockPte(w, p) && !FORMAT.kind(2, w).Table? && FORMAT.ok(h, s.index, w)
  {
  }

  lemma PageStore(m: Memory<Word>, own: Owners<Word>, spaces: set<Word>, root: Word, virt: Word, l2: Word, l3: Word, w: Word)
    requires WellFormed(FORMAT, m, own, spaces) && root in spaces && ThirdLevel(m, own, root, virt, l2, l3) && IsPageEntry(w)
    ensures WellFormed(FORMAT, m[Slot(l3, L3(virt)) := w], own, spaces)
    ensures PageUpdated(spaces, m, m[Slot(l3, L3(virt)) := w], root, PathOf(virt), PagePte(w))
  {
    var s, path := Slot(l3, L3(virt)), PathOf(virt);
    DescendThird(m, own, root, virt, l2, l3);
    PageEntryOutcome(s, w, path, HomeOf(own, l3));
    LeafUnshared(FORMAT, m, own, s, w);
    forall r, p | r in spaces && IsPath(p)
      ensures View(m[s := w], r, p) == if r == root && p == path then PagePte(w) else View(m, r, p)
    {
      PageView(m, own, spaces, root, virt, l2, l3, w, r, p);
    }
  }

  /** One walk after the store. */
  lemma PageView(m: Memory<Word>, own: Owners<Word>, spaces: set<Word>, root: Word, virt: Word, l2: Word, l3: Word, w: Word, r: Word, p: Path<Word>)
    requires WellFormed(FORMAT, m, own, spaces) && root in spaces && ThirdLevel(m, own, root, virt, l2, l3) && IsPageEntry(w)
    requires r in spaces && IsPath(p)
    ensures View(m[Slot(l3, L3(virt)) := w], r, p) == if r == root && p == PathOf(virt) then PagePte(w) else View(m, r, p)
  {
    var s, path := Slot(l3, L3(virt)), PathOf(virt);
    DescendThird(m, own, root, virt, l2, l3);
    PageEntryOutcome(s, w, path, HomeOf(own, l3));
    LeafStore(FORMAT, m, own, spaces, s, w, root, path, 2, r, p);
    WholePath(path, p);
  }

  lemma WholePath(path: Path<Word>, p: Path<Word>)
    requires |path| == |p| == 3
    ensures path[..3] <= p <==> p == path
    ensures path[..2] <= p <==> p[0] == path[0] && p[1] == path[1]
  {
  }

  lemma BlockStore(m: Memory<Word>, own: Owners<Word>, spaces: set<Word>, root: Word, virt: Word, l2: Word, w: Word)
    requires WellFormed(FORMAT, m, own, spaces) && root in spaces && SecondLevel(m, own, root, virt, l2) && IsBlockEntry(w)
    ensures WellFormed(FORMAT, m[Slot(l2, L2(virt)) := w], own, spaces)
    ensures BlockUpdated(spaces, m, m[Slot(l2, L2(virt)) := w], root, PathOf(virt), w)
  {
    var s, path := Slot(l2, L2(virt)), PathOf(virt);
    DescendSecond(m, own, root, virt, l2);
    BlockEntryOutcome(s, w, path, HomeOf(own, l2));
    LeafUnshared(FORMAT, m, own, s, w);
    forall r, p | r in spaces && IsPath(p)
      ensures View(m[s := w], r, p) == if r == root && p[0] == path[0] && p[1] == path[1] then BlockPte(w, p) else View(m, r, p)
    {
      LeafStore(FORMAT, m, own, spaces, s, w, root, path, 1, r, p);
      WholePath(path, p);
      BlockEntryOutcome(s, w, p, HomeOf(own, l2));
    }
  }

  /** Flushing one page covers a last-level entry. */
  lemma PageCovers(m: Memory<Word>, own: Owners<Word>, spaces: set<Word>, root: Word, virt: Word, l2: Word, l3: Word)
    requires WellFormed(FORMAT, m, own, spaces) && ThirdLevel(m, own, root, virt, l2, l3)
    ensures Covers(FORMAT, spaces, m, Slot(l3, L3(virt)), Flush(Page(PathOf(virt)), None))
  {
    DescendThird(m, own, root, virt, l2, l3);
    LastKind(Read(FORMAT, m, Slot(l3, L3(virt))));
    PathCovers(FORMAT, spaces, own, m, root, PathOf(virt), 2, l3, None);
  }

  /** Storing the word that is there already. */
  lemma StoreSame(m: Memory<Word>, spaces: set<Word>, s: Slot<Word>, w: Word)
    requires Read(FORMAT, m, s) == w
    ensures SameViews(spaces, m, m[s := w])
  {
    forall r, p | r in spaces && IsPath(p)
      ensures View(m[s := w], r, p) == View(m, r, p)
    {
      WalkSame(FORMAT, m, m[s := w], r, p);
    }
  }

  /** Tables that must be allocated before `virt` has a last-level entry. */
  ghost function TablesNeeded(mem: Memory<Word>, root: Word, virt: Word): nat {
    match FORMAT.kind(3, Read(FORMAT, mem, Slot(root, L1(virt))))
    case Table(l2) => if FORMAT.kind(2, Read(FORMAT, mem, Slot(l2, L2(virt)))).Table? then 0 else 1
    case _ => 2
  }

  predicate PageAligned(x: Word) {
    x & PAGE_OFFSET == 0
  }

  function PageWord(phys: Word, flags: Word): Word {
    (phys & ADDR) | VALID | TABLE | FlagsToDesc(flags)
  }

  function BlockWord(phys: Word, flags: Word): Word {
    (phys & ADDR & !BLOCK_OFFSET) | VALID | FlagsToDesc(flags)
  }

  lemma PageWordPte(phys: Word, flags: Word)
    ensures IsPageEntry(PageWord(phys, flags))
    ensures PagePte(PageWord(phys, flags)) == Some(Pte(phys & ADDR, VALID | FlagsToDesc(flags)))
  {
  }

  /** Top-level entries are tables or nothing. */
  lemma TopEntry(mem: Memory<Word>, own: Owners<Word>, root: Word, i: Word)
    requires Unshared(FORMAT, mem, own) && IsRoot(own, root)
    ensures FORMAT.kind(3, Read(FORMAT, mem, Slot(root, i))) != Leaf
  {
    assert Linked(FORMAT, mem, own, root, i);
  }

  predicate BlockAligned(x: Word) {
    x & BLOCK_OFFSET == 0
  }

  /** A 2 MiB block covers `virt`. */
  ghost predicate InBlock(mem: Memory<Word>, root: Word, virt: Word) {
    var top := FORMAT.kind(3, Read(FORMAT, mem, Slot(root, L1(virt))));
    top.Table? && FORMAT.kind(2, Read(FORMAT, mem, Slot(top.next, L2(virt)))).Leaf?
  }

  lemma NotATable(w: Word)
    requires w & VALID == 0 || w & TABLE == 0
    ensures !FORMAT.kind(2, w).Table?
  {
  }

  lemma NotABlock(w: Word)
    requires w & VALID == 0 || w & TABLE != 0
    ensures FORMAT.kind(2, w) != Leaf
  {
  }

  lemma BlockWordIsBlock(phys: Word, flags: Word)
    ensures IsBlockEntry(BlockWord(phys, flags)) && BlockWord(phys, flags) & VALID != 0
  {
  }

  /** A block fits: no table is in its place and the level above exists or can be made. */
  ghost predicate RoomForBlock(mem: Memory<Word>, pool: seq<Word>, root: Word, virt: Word) {
    match TablesNeeded(mem, root, virt) case 0 => false case 1 => true case _ => pool != []
  }

  lemma BlockUpdatedTrans(spaces: set<Word>, l: Memory<Word>, m: Memory<Word>, n: Memory<Word>, root: Word, path: Path<Word>, w: Word)
    requires SameViews(spaces, l, m) && BlockUpdated(spaces, m, n, root, path, w)
    ensures BlockUpdated(spaces, l, n, root, path, w)
  {
  }

  // ---- What the walk of one address finds ---------------------------------

  lemma NoSecond(mem: Memory<Word>, root: Word, virt: Word)
    requires FORMAT.kind(3, Read(FORMAT, mem, Slot(root, L1(virt)))) == Hole
    ensures View(mem, root, PathOf(virt)) == None && !InBlock(mem, root, virt)
  {
  }

  /** The walk of `virt` goes through level-2 table `l2`. */
  ghost predicate Through(mem: Memory<Word>, root: Word, virt: Word, l2: Word) {
    FORMAT.kind(3, Read(FORMAT, mem, Slot(root, L1(virt)))) == Table(l2)
  }

  lemma WalkFromSecond(mem: Memory<Word>, root: Word, virt: Word, l2: Word)
    requires Through(mem, root, virt, l2)
    ensures Walk(FORMAT, mem, root, PathOf(virt)) == Walk(FORMAT, mem, l2, [L2(virt), L3(virt)])
  {
    assert PathOf(virt)[1..] == [L2(virt), L3(virt)];
  }

  lemma WalkFromThird(mem: Memory<Word>, root: Word, virt: Word, l2: Word, l3: Word)
    requires Through(mem, root, virt, l2) && FORMAT.kind(2, Read(FORMAT, mem, Slot(l2, L2(virt)))) == Table(l3)
    ensures Walk(FORMAT, mem, root, PathOf(virt)) == LeafOutcome(FORMAT, 1, Slot(l3, L3(virt)), Read(FORMAT, mem, Slot(l3, L3(virt))))
    ensures !InBlock(mem, root, virt)
  {
    WalkFromSecond(mem, root, virt, l2);
    assert [L2(virt), L3(virt)][1..] == [L3(virt)];
    LastKind(Read(FORMAT, mem, Slot(l3, L3(virt))));
  }

  lemma LastKind(w: Word)
    ensures !FORMAT.kind(1, w).Table?
  {
  }

  lemma NoThird(mem: Memory<Word>, root: Word, virt: Word, l2: Word)
    requires Through(mem, root, virt, l2) && FORMAT.kind(2, Read(FORMAT, mem, Slot(l2, L2(virt)))) == Hole
    ensures View(mem, root, PathOf(virt)) == None && !InBlock(mem, root, virt)
  {
    WalkFromSecond(mem, root, virt, l2);
  }

  lemma BlockThere(mem: Memory<Word>, root: Word, virt: Word, l2: Word)
    requires Through(mem, root, virt, l2) && Read(FORMAT, mem, Slot(l2, L2(virt))) & 3 == VALID
    ensures View(mem, root, PathOf(virt)) == BlockPte(Read(FORMAT, mem, Slot(l2, L2(virt))), PathOf(virt)) && InBlock(mem, root, virt)
  {
    WalkFromSecond(mem, root, virt, l2);
    KindBlock(2, Read(FORMAT, mem, Slot(l2, L2(virt))));
  }

  lemma PageThere(mem: Memory<Word>, own: Owners<Word>, root: Word, virt: Word, l2: Word, l3: Word)
    requires Unshared(FORMAT, mem, own) && Owned(own, l3) && Depth(own, l3) == 2
    requires Through(mem, root, virt, l2) && FORMAT.kind(2, Read(FORMAT, mem, Slot(l2, L2(virt)))) == Table(l3)
    ensures View(mem, root, PathOf(virt)) == PagePte(Read(FORMAT, mem, Slot(l3, L3(virt)))) && !InBlock(mem, root, virt)
    ensures IsPageEntry(Read(FORMAT, mem, Slot(l3, L3(virt))))
  {
    var w := Read(FORMAT, mem, Slot(l3, L3(virt)));
    WalkFromThird(mem, root, virt, l2, l3);
    assert Linked(FORMAT, mem, own, l3, L3(virt));
    LastLevel(HomeOf(own, l3), L3(virt), w);
    PageEntryOutcome(Slot(l3, L3(virt)), w, PathOf(virt), HomeOf(own, l3));
  }

  lemma LastLevel(h: Home<Word>, i: Word, w: Word)
    requires FORMAT.ok(h, i, w) && |h.prefix| == 2
    ensures IsPageEntry(w)
  {
  }

  function Protected(pte: Pte, flags: Word): Pte {
    pte.(attributes := (pte.attributes & !PERMISSIONS) | (FlagsToDesc(flags) & PERMISSIONS))
  }

  lemma ProtectedWord(w: Word, flags: Word)
    requires IsPageEntry(w) && w & VALID != 0
    ensures var v := (w & !PERMISSIONS) | (FlagsToDesc(flags) & PERMISSIONS);
      IsPageEntry(v) && PagePte(v) == Some(Protected(PagePte(w).value, flags))
  {
  }

  lemma BlockAddress(w: Word, virt: Word)
    ensures (w & ADDR & !BLOCK_OFFSET) | (virt & BLOCK_OFFSET) == ((w & ADDR & !BLOCK_OFFSET) | (L3(virt) << 12)) | (virt & PAGE_OFFSET)
  {
  }

  function PhysOf(pte: Option<Pte>, virt: Word): Word {
    match pte case None => 0 case Some(p) => p.frame | (virt & PAGE_OFFSET)
  }

  /** The attributes let user code read, or write, ordinary memory. */
  predicate Allows(attributes: Word, write: bool) {
    attributes & AP_USER != 0 && (write ==> attributes & AP_READ_ONLY == 0) && (attributes >> 2) & 7 == 1
  }

  predicate Grants(pte: Option<Pte>, write: bool) {
    pte.Some? && Allows(pte.value.attributes, write)
  }

  lemma BlockPhys(mem: Memory<Word>, root: Word, virt: Word, l2: Word)
    requires Through(mem, root, virt, l2) && Read(FORMAT, mem, Slot(l2, L2(virt))) & 3 == VALID
    ensures var w := Read(FORMAT, mem, Slot(l2, L2(virt)));
      (w & ADDR & !BLOCK_OFFSET) | (virt & BLOCK_OFFSET) == PhysOf(View(mem, root, PathOf(virt)), virt)
  {
    BlockThere(mem, root, virt, l2);
    BlockAddress(Read(FORMAT, mem, Slot(l2, L2(virt))), virt);
  }

  /** The bytes an entry covers at each level, less one. */
  function OffsetMask(level: nat): Word {
    if level == 0 then 0x3FFF_FFFF else if level == 1 then BLOCK_OFFSET else PAGE_OFFSET
  }

  /** The end of the user walk. */
  function UserLeaf(entry: Word, virt: Word, mask: Word, write: bool): Word {
    if entry & AP_USER == 0 || (write && entry & AP_READ_ONLY != 0) then 0
    else if (entry >> 2) & 7 != 1 then 0      // device memory
    else (entry & ADDR & !mask) | (virt & mask)
  }

  /** What the user walk should return for a page that is mapped as `pte`. */
  function UserPhys(pte: Option<Pte>, virt: Word, write: bool): Word {
    if Grants(pte, write) then PhysOf(pte, virt) else 0
  }

  lemma AttributesKeepAccess(w: Word)
    ensures Attributes(w) & AP_USER == w & AP_USER && Attributes(w) & AP_READ_ONLY == w & AP_READ_ONLY
    ensures (Attributes(w) >> 2) & 7 == (w >> 2) & 7
  {
  }

  lemma UserPage(entry: Word, virt: Word, write: bool)
    requires entry & VALID != 0
    ensures UserLeaf(entry, virt, PAGE_OFFSET, write) == UserPhys(PagePte(entry), virt, write)
  {
  }

  lemma UserBlock(entry: Word, virt: Word, p: Path<Word>, write: bool)
    requires entry & VALID != 0 && |p| == 3 && p[2] == L3(virt)
    ensures UserLeaf(entry, virt, BLOCK_OFFSET, write) == UserPhys(BlockPte(entry, p), virt, write)
  {
    AttributesKeepAccess(entry);
    BlockAddress(entry, virt);
  }

  /** What a user walk that stands at `table` returns, by the entry it reads next. */
  lemma UserHole(w: Word, rest: nat)
    requires w & VALID == 0
    ensures FORMAT.kind(rest, w) == Hole
  {
  }

  lemma UserLeafKind(h: Home<Word>, i: Word, w: Word)
    requires |h.prefix| < 3 && FORMAT.ok(h, i, w) && w & VALID != 0 && (|h.prefix| == 2 || w & TABLE == 0)
    ensures FORMAT.kind(3 - |h.prefix|, w) == Leaf && |h.prefix| != 0
  {
  }

  lemma UserLink(h: Home<Word>, i: Word, w: Word)
    requires FORMAT.ok(h, i, w) && |h.prefix| < 2 && w & VALID != 0 && w & TABLE != 0
    ensures FORMAT.kind(3 - |h.prefix|, w) == Table(w & ADDR)
    ensures w & 0x2000_0000_0000_0000 == 0 && w & 0x4000_0000_0000_0000 == 0
  {
  }

  lemma UserEnd(s: Slot<Word>, w: Word, virt: Word, p: Path<Word>, level: nat, write: bool)
    requires w & VALID != 0 && level in {1, 2} && |p| == 3 && p[2] == L3(virt)
    ensures UserLeaf(w, virt, OffsetMask(level), write) == UserPhys(PteOf(Hit(3 - level, s, w), p), virt, write)
  {
    if level == 2 {
      UserPage(w, virt, write);
    } else {
      UserBlock(w, virt, p, write);
    }
  }

  lemma WayBreaks(mem: Memory<Word>, own: Owners<Word>, root: Word, path: Path<Word>, table: Word, level: nat)
    requires Unshared(FORMAT, mem, own) && OnTheWay(FORMAT, mem, own, root, path, table, level)
    requires Read(FORMAT, mem, Slot(table, path[level])) & VALID == 0
    ensures View(mem, root, path) == None
  {
    WayStep(FORMAT, mem, own, root, path, table, level);
    UserHole(Read(FORMAT, mem, Slot(table, path[level])), 3 - level);
  }

  lemma WayEnds(mem: Memory<Word>, own: Owners<Word>, root: Word, path: Path<Word>, table: Word, level: nat, virt: Word, write: bool)
    requires Unshared(FORMAT, mem, own) && OnTheWay(FORMAT, mem, own, root, path, table, level) && path[2] == L3(virt)
    requires var entry := Read(FORMAT, mem, Slot(table, path[level])); entry & VALID != 0 && (level == 2 || entry & TABLE == 0)
    ensures UserLeaf(Read(FORMAT, mem, Slot(table, path[level])), virt, OffsetMask(level), write)
            == UserPhys(View(mem, root, path), virt, write)
  {
    var entry := Read(FORMAT, mem, Slot(table, path[level]));
    WayStep(FORMAT, mem, own, root, path, table, level);
    UserLeafKind(HomeOf(own, table), path[level], entry);
    UserEnd(Slot(table, path[level]), entry, virt, path, level, write);
  }

  lemma WayGoesOn(mem: Memory<Word>, own: Owners<Word>, root: Word, path: Path<Word>, table: Word, level: nat)
    requires Unshared(FORMAT, mem, own) && OnTheWay(FORMAT, mem, own, root, path, table, level)
    requires var entry := Read(FORMAT, mem, Slot(table, path[level])); entry & VALID != 0 && level != 2 && entry & TABLE != 0
    ensures var entry := Read(FORMAT, mem, Slot(table, path[level]));
      && OnTheWay(FORMAT, mem, own, root, path, entry & ADDR, level + 1)
      && entry & 0x2000_0000_0000_0000 == 0 && entry & 0x4000_0000_0000_0000 == 0
  {
    WayStep(FORMAT, mem, own, root, path, table, level);
    UserLink(HomeOf(own, table), path[level], Read(FORMAT, mem, Slot(table, path[level])));
  }

  // ---- New address spaces -------------------------------------------------

  /** The first `n` entries of `t` are those of `k`. */
  ghost predicate CopiedBelow(mem: Memory<Word>, t: Word, k: Word, n: Word) {
    forall j: Word :: j < n ==> Read(FORMAT, mem, Slot(t, j)) == Read(FORMAT, mem, Slot(k, j))
  }

  lemma CopiedBelowNext(mem: Memory<Word>, t: Word, k: Word, n: Word)
    requires CopiedBelow(mem, t, k, n) && n < 512 && t != k
    ensures CopiedBelow(mem[Slot(t, n) := Read(FORMAT, mem, Slot(k, n))], t, k, n + 1)
  {
    var next := mem[Slot(t, n) := Read(FORMAT, mem, Slot(k, n))];
    forall j: Word | j < n + 1
      ensures Read(FORMAT, next, Slot(t, j)) == Read(FORMAT, next, Slot(k, j))
    {
      UpTo(j, n);
    }
  }

  lemma BeyondTable(mem: Memory<Word>, t: Word, k: Word)
    requires CopiedBelow(mem, t, k, 512) && forall s :: s in mem ==> s.index < 512
    ensures forall i :: Read(FORMAT, mem, Slot(t, i)) == Read(FORMAT, mem, Slot(k, i))
  {
    forall i
      ensures Read(FORMAT, mem, Slot(t, i)) == Read(FORMAT, mem, Slot(k, i))
    {
      assert i < 512 || (Slot(t, i) !in mem && Slot(k, i) !in mem);
    }
  }

  /** The root maps nothing but what all roots share. */
  ghost predicate Bare(mem: Memory<Word>, root: Word) {
    forall i :: !FORMAT.shared(i) ==> AlwaysHole(FORMAT, Read(FORMAT, mem, Slot(root, i)))
  }

  /** A copy of a bare root shares what all roots share and has nothing else. */
  lemma BareCopy(mem: Memory<Word>, own: Owners<Word>, kernel: Word, copy: Word)
    requires Unshared(FORMAT, mem, own) && IsRoot(own, kernel) && Bare(mem, kernel)
    requires forall i :: Read(FORMAT, mem, Slot(copy, i)) == Read(FORMAT, mem, Slot(kernel, i))
    ensures RootCopy(FORMAT, mem, kernel, copy)
    ensures forall p :: |p| == 3 ==> Walk(FORMAT, mem, copy, p) == Walk(FORMAT, mem, kernel, p)
  {
    forall i
      ensures RootEntryOk(FORMAT, copy, i, Read(FORMAT, mem, Slot(copy, i)))
    {
      assert Linked(FORMAT, mem, own, kernel, i);
    }
    forall p: Path<Word> | |p| == 3
      ensures Walk(FORMAT, mem, copy, p) == Walk(FORMAT, mem, kernel, p)
    {
      TopEntry(mem, own, kernel, p[0]);
      RootCopyWalk(FORMAT, mem, kernel, copy, p);
    }
  }

  method ReplaceDescriptor(vm: Tables, s: Slot<Word>, w: Word, virt: Word, whole: bool)
    requires vm.f == FORMAT && vm.Session()
    requires Covers(FORMAT, vm.spaces, vm.mem, s, Flush(if whole then Everything else Page(PathOf(virt)), None))
    modifies vm`mem, vm`log
    ensures vm.mem == if Read(FORMAT, old(vm.mem), s) == w then old(vm.mem) else old(vm.mem)[s := w]
    ensures vm.Session()
  {
    ghost var flush := Flush(if whole then Everything else Page(PathOf(virt)), None);
    if Read(FORMAT, vm.mem, s) == w { return; }
    ZeroIsHole();
    if Read(FORMAT, vm.mem, s) & VALID != 0 {
      HoleIsQuiet(FORMAT, vm.spaces, vm.mem[s := 0], s);
      LogStoreFlush(FORMAT, vm.spaces, vm.start, vm.log, s, 0, flush);
      vm.mem := vm.mem[s := 0];
      vm.log := vm.log + [Store(s, 0), flush];
    }
    HoleIsQuiet(FORMAT, vm.spaces, vm.mem, s);
    LogStore(FORMAT, vm.spaces, vm.start, vm.log, s, w);
    LogFlush(FORMAT, vm.spaces, vm.start, vm.log + [Store(s, w)], flush);
    vm.mem := vm.mem[s := w];
    vm.log := vm.log + [Store(s, w)] + [flush];
  }

  /** Publishes a blank page as the table behind an empty entry. */
  method Link(vm: Tables, t: Word, i: Word, next: Word)
    requires Ready(vm) && Owned(vm.own, t) && Depth(vm.own, t) < 2 && i < 512
    requires FORMAT.kind(3 - Depth(vm.own, t), Read(FORMAT, vm.mem, Slot(t, i))) == Hole
    requires !Owned(vm.own, next) && IsPage(next) && Blank(FORMAT, vm.mem, next) && next in vm.arena && next !in vm.pool
    modifies vm`mem, vm`own, vm`log
    ensures Ready(vm) && SameWalks(FORMAT, vm.spaces, old(vm.mem), vm.mem)
    ensures vm.own == Extend(old(vm.own), next, Child(FORMAT, old(HomeOf(vm.own, t)), i))
    ensures FORMAT.kind(3 - old(Depth(vm.own, t)), Read(FORMAT, vm.mem, Slot(t, i))) == Table(next)
    ensures Blank(FORMAT, vm.mem, next) && OthersKept(FORMAT, old(vm.own), old(vm.mem), vm.mem, Slot(t, i))
  {
    ZeroIsHole();
    TableWord(next, 3 - Depth(vm.own, t));
    LinkFresh(FORMAT, vm.mem, vm.own, vm.spaces, Slot(t, i), next | VALID | TABLE, next);
    ReplaceDescriptor(vm, Slot(t, i), next | VALID | TABLE, 0, true);
    vm.own := Extend(vm.own, next, Child(FORMAT, HomeOf(vm.own, t), i));
  }

  /** Allocates a table and publishes it behind an empty entry. */
  method NewTable(vm: Tables, t: Word, i: Word) returns (next: Word)
    requires Ready(vm) && Owned(vm.own, t) && Depth(vm.own, t) < 2 && i < 512 && Entry(vm, t, i) == Hole
    modifies vm`mem, vm`pool, vm`own, vm`log
    ensures Ready(vm) && SameWalks(FORMAT, vm.spaces, old(vm.mem), vm.mem)
    ensures next == 0 <==> old(vm.pool) == []
    ensures next == 0 ==> vm.mem == old(vm.mem) && vm.pool == old(vm.pool) && vm.own == old(vm.own)
    ensures next != 0 ==> vm.pool == old(vm.pool)[1..] && vm.own == Extend(old(vm.own), next, Child(FORMAT, HomeOf(old(vm.own), t), i))
    ensures next != 0 ==> Owned(vm.own, t) && Depth(vm.own, t) < 3 && Entry(vm, t, i) == Table(next) && Blank(FORMAT, vm.mem, next)
    ensures next != 0 ==> HomeOf(vm.own, t) == old(HomeOf(vm.own, t)) && Owned(vm.own, next) && HomeOf(vm.own, next) == Child(FORMAT, HomeOf(vm.own, t), i)
    ensures OthersKept(FORMAT, old(vm.own), old(vm.mem), vm.mem, Slot(t, i))
  {
    next := vm.AllocTable();
    if next != 0 {
      ghost var before := vm.mem;
      Link(vm, t, i, next);
      SameWalksTrans(FORMAT, vm.spaces, old(vm.mem), before, vm.mem);
    }
  }

  /** The table behind an entry, if there is one: `NextTable` without `create`. */
  method FindTable(vm: Tables, t: Word, i: Word) returns (next: Word)
    requires Ready(vm) && Owned(vm.own, t) && Depth(vm.own, t) < 2
    ensures next == 0 <==> !Entry(vm, t, i).Table?
    ensures next != 0 ==> Entry(vm, t, i) == Table(next) && Owned(vm.own, next) && HomeOf(vm.own, next) == Child(FORMAT, HomeOf(vm.own, t), i)
  {
    var entry := Read(FORMAT, vm.mem, Slot(t, i));
    if entry & VALID != 0 && entry & TABLE != 0 {
      KindTable(3 - Depth(vm.own, t), entry);
      assert Linked(FORMAT, vm.mem, vm.own, t, i);
      next := entry & ADDR;
    } else {
      if entry & VALID == 0 { KindHole(3 - Depth(vm.own, t), entry); } else { KindBlock(3 - Depth(vm.own, t), entry); }
      next := 0;
    }
  }

  /** A lookup at index `i` of `t` has found `next`, and has changed nothing unless it made it. */
  ghost predicate LookedUp(m: Memory<Word>, own: Owners<Word>, pool: seq<Word>, n: Memory<Word>, later: Owners<Word>, left: seq<Word>,
                           t: Word, i: Word, create: bool, next: Word)
    requires Owned(own, t) && Depth(own, t) < 3
  {
    var depth := 3 - Depth(own, t);
    var kind := FORMAT.kind(depth, Read(FORMAT, m, Slot(t, i)));
    && (next == 0 || kind != Hole ==> n == m && left == pool && later == own)
    && (next == 0 <==> !(kind.Table? || (create && kind.Hole? && pool != [])))
    && (next != 0 ==>
      && Owned(later, t) && HomeOf(later, t) == HomeOf(own, t) && FORMAT.kind(depth, Read(FORMAT, n, Slot(t, i))) == Table(next)
      && Owned(later, next) && HomeOf(later, next) == Child(FORMAT, HomeOf(own, t), i))
    && (next != 0 && kind == Hole ==> left == pool[1..] && Blank(FORMAT, n, next) && later == Extend(own, next, Child(FORMAT, HomeOf(own, t), i)))
    && OthersKept(FORMAT, own, m, n, Slot(t, i))
  }

  /** The table behind an entry; 0 when there is none and none can be made. */
  method NextTable(vm: Tables, t: Word, i: Word, create: bool) returns (next: Word)
    requires Ready(vm) && Owned(vm.own, t) && Depth(vm.own, t) < 2 && i < 512
    modifies vm`mem, vm`pool, vm`own, vm`log
    ensures Ready(vm) && SameWalks(FORMAT, vm.spaces, old(vm.mem), vm.mem)
    ensures LookedUp(old(vm.mem), old(vm.own), old(vm.pool), vm.mem, vm.own, vm.pool, t, i, create, next)
  {
    var entry := Read(FORMAT, vm.mem, Slot(t, i));
    if create && entry & VALID == 0 {
      KindHole(3 - Depth(vm.own, t), entry);
      next := NewTable(vm, t, i);
    } else {
      KindValid(3 - Depth(vm.own, t), entry);
      next := FindTable(vm, t, i);
    }
  }

  /** Replaces the 2 MiB block that covers `virt` by a table of its 512 pages; 0 when memory is exhausted. */
  method SplitBlock(vm: Tables, root: Word, virt: Word, l2: Word) returns (l3: Word)
    requires Ready(vm) && root in vm.spaces && SecondLevel(vm.mem, vm.own, root, virt, l2)
    requires Read(FORMAT, vm.mem, Slot(l2, L2(virt))) & 3 == VALID
    modifies vm`mem, vm`pool, vm`own, vm`log
    ensures Ready(vm) && SameViews(vm.spaces, old(vm.mem), vm.mem)
    ensures l3 == 0 <==> old(vm.pool) == []
    ensures l3 != 0 ==> ThirdLevel(vm.mem, vm.own, root, virt, l2, l3)
  {
    l3 := vm.AllocTable();
    if l3 == 0 { return; }
    var block := Read(FORMAT, vm.mem, Slot(l2, L2(virt)));
    FillFromBlock(vm, l3, block);
    SameWalksSameViews(vm.spaces, old(vm.mem), vm.mem);
    InstallSplit(vm, root, virt, l2, l3);
  }

  /** Puts the filled table in place of the block. */
  method InstallSplit(vm: Tables, root: Word, virt: Word, l2: Word, l3: Word)
    requires Ready(vm) && root in vm.spaces && SecondLevel(vm.mem, vm.own, root, virt, l2)
    requires Read(FORMAT, vm.mem, Slot(l2, L2(virt))) & 3 == VALID && !Owned(vm.own, l3) && IsPage(l3) && l3 in vm.arena && l3 !in vm.pool
    requires SplitBelow(vm.mem, l3, Read(FORMAT, vm.mem, Slot(l2, L2(virt))), 512)
    modifies vm`mem, vm`own, vm`log
    ensures Ready(vm) && SameViews(vm.spaces, old(vm.mem), vm.mem) && ThirdLevel(vm.mem, vm.own, root, virt, l2, l3)
  {
    SplitFits(vm.mem, vm.own, vm.spaces, root, virt, l2, l3);
    StillHoused(vm.arena, vm.own, vm.pool, l3, Home(Some(root), PathOf(virt)[..2]));
    NotYet(Read(FORMAT, vm.mem, Slot(l2, L2(virt))), l3);
    ReplaceDescriptor(vm, Slot(l2, L2(virt)), l3 | VALID | TABLE, virt, true);
    vm.own := Extend(vm.own, l3, Home(Some(root), PathOf(virt)[..2]));
  }

  lemma NotYet(block: Word, l3: Word)
    requires block & 3 == VALID
    ensures block != l3 | VALID | TABLE
  {
  }

  method FillFromBlock(vm: Tables, t: Word, block: Word)
    requires vm.f == FORMAT && WellFormed(FORMAT, vm.mem, vm.own, vm.spaces) && vm.Session() && !Owned(vm.own, t)
    modifies vm`mem, vm`log
    ensures WellFormed(FORMAT, vm.mem, vm.own, vm.spaces) && vm.Session() && SameWalks(FORMAT, vm.spaces, old(vm.mem), vm.mem)
    ensures SplitBelow(vm.mem, t, block, 512) && AgreeOffTable(FORMAT, old(vm.mem), vm.mem, t)
  {
    var i: Word := 0;
    while i < 512
      invariant i <= 512
      invariant WellFormed(FORMAT, vm.mem, vm.own, vm.spaces) && vm.Session() && SameWalks(FORMAT, vm.spaces, old(vm.mem), vm.mem)
      invariant SplitBelow(vm.mem, t, block, i) && AgreeOffTable(FORMAT, old(vm.mem), vm.mem, t)
      decreases 512 - i
    {
      ghost var before := vm.mem;
      vm.WriteOutside(Slot(t, i), SplitWord(block, i));
      SplitBelowNext(before, t, block, i);
      SameWalksTrans(FORMAT, vm.spaces, old(vm.mem), before, vm.mem);
      i := i + 1;
    }
  }

  /** Writes the last-level entry behind `virt`. */
  method SetPage(vm: Tables, root: Word, virt: Word, l3: Word, w: Word, ghost l2: Word)
    requires Ready(vm) && root in vm.spaces && ThirdLevel(vm.mem, vm.own, root, virt, l2, l3) && IsPageEntry(w)
    modifies vm`mem, vm`log
    ensures Ready(vm) && PageUpdated(vm.spaces, old(vm.mem), vm.mem, root, PathOf(virt), PagePte(w))
    ensures !InBlock(vm.mem, root, virt)
  {
    PageCovers(vm.mem, vm.own, vm.spaces, root, virt, l2, l3);
    PageStore(vm.mem, vm.own, vm.spaces, root, virt, l2, l3, w);
    if Read(FORMAT, vm.mem, Slot(l3, L3(virt))) == w {
      StoreSame(vm.mem, vm.spaces, Slot(l3, L3(virt)), w);
    }
    ReplaceDescriptor(vm, Slot(l3, L3(virt)), w, virt, false);
    ThirdIsNoBlock(old(vm.mem), vm.mem, vm.own, root, virt, l2, l3, w);
  }

  /** A store into the last level leaves the tables above it in place. */
  lemma ThirdIsNoBlock(m: Memory<Word>, n: Memory<Word>, own: Owners<Word>, root: Word, virt: Word, l2: Word, l3: Word, w: Word)
    requires ThirdLevel(m, own, root, virt, l2, l3) && (n == m || n == m[Slot(l3, L3(virt)) := w])
    ensures !InBlock(n, root, virt)
  {
    assert |HomeOf(own, root).prefix| == 0 && |HomeOf(own, l2).prefix| == 1 && |HomeOf(own, l3).prefix| == 2;
  }

  /** Writes the level-2 entry behind `virt`. */
  method SetBlock(vm: Tables, root: Word, virt: Word, l2: Word, w: Word)
    requires Ready(vm) && root in vm.spaces && SecondLevel(vm.mem, vm.own, root, virt, l2) && IsBlockEntry(w)
    modifies vm`mem, vm`log
    ensures Ready(vm) && BlockUpdated(vm.spaces, old(vm.mem), vm.mem, root, PathOf(virt), w)
  {
    BlockStore(vm.mem, vm.own, vm.spaces, root, virt, l2, w);
    if Read(FORMAT, vm.mem, Slot(l2, L2(virt))) == w {
      StoreSame(vm.mem, vm.spaces, Slot(l2, L2(virt)), w);
    }
    ReplaceDescriptor(vm, Slot(l2, L2(virt)), w, virt, true);
  }

  /** The level-2 table behind `virt`, made if need be. */
  method SecondTable(vm: Tables, root: Word, virt: Word) returns (l2: Word)
    requires Ready(vm) && root in vm.spaces && UserRange(virt, 1)
    modifies vm`mem, vm`pool, vm`own, vm`log
    ensures Ready(vm) && SameViews(vm.spaces, old(vm.mem), vm.mem)
    ensures l2 != 0 ==> SecondLevel(vm.mem, vm.own, root, virt, l2)
    ensures l2 == 0 ==> TablesNeeded(old(vm.mem), root, virt) == 2 && old(vm.pool) == []
    ensures l2 != 0 ==>
      if TablesNeeded(old(vm.mem), root, virt) == 2 then TablesNeeded(vm.mem, root, virt) == 1 && |vm.pool| == |old(vm.pool)| - 1
      else TablesNeeded(vm.mem, root, virt) == TablesNeeded(old(vm.mem), root, virt) && vm.pool == old(vm.pool)
  {
    ghost var m, own, pool := vm.mem, vm.own, vm.pool;
    IndicesInRange(virt);
    l2 := NextTable(vm, root, L1(virt), true);
    SameWalksSameViews(vm.spaces, m, vm.mem);
    SecondFound(m, own, pool, vm.mem, vm.own, vm.pool, root, virt, l2);
  }

  lemma IndicesInRange(virt: Word)
    ensures L1(virt) < 512 && L2(virt) < 512 && L3(virt) < 512
  {
  }

  /** What a lookup in the root means for `virt`. */
  lemma SecondFound(m: Memory<Word>, own: Owners<Word>, pool: seq<Word>, n: Memory<Word>, later: Owners<Word>, left: seq<Word>, root: Word, virt: Word, l2: Word)
    requires Unshared(FORMAT, m, own) && IsRoot(own, root) && IsRoot(later, root) && UserRange(virt, 1)
    requires LookedUp(m, own, pool, n, later, left, root, L1(virt), true, l2)
    ensures l2 == 0 ==> TablesNeeded(m, root, virt) == 2 && pool == []
    ensures l2 != 0 ==> SecondLevel(n, later, root, virt, l2)
    ensures l2 != 0 ==>
      if TablesNeeded(m, root, virt) == 2 then TablesNeeded(n, root, virt) == 1 && |left| == |pool| - 1
      else TablesNeeded(n, root, virt) == TablesNeeded(m, root, virt) && left == pool
  {
    UserIsPrivate(virt);
    TopEntry(m, own, root, L1(virt));
    if l2 != 0 && FORMAT.kind(3, Read(FORMAT, m, Slot(root, L1(virt)))) == Hole {
      KindHole(2, 0);
    }
  }

  /** The last-level table behind `virt` where no block is in its place. */
  method MakeThird(vm: Tables, root: Word, virt: Word, l2: Word) returns (l3: Word)
    requires Ready(vm) && root in vm.spaces && SecondLevel(vm.mem, vm.own, root, virt, l2)
    requires FORMAT.kind(2, Read(FORMAT, vm.mem, Slot(l2, L2(virt)))) != Leaf
    modifies vm`mem, vm`pool, vm`own, vm`log
    ensures Ready(vm) && SameViews(vm.spaces, old(vm.mem), vm.mem)
    ensures l3 == 0 <==> !FORMAT.kind(2, Read(FORMAT, old(vm.mem), Slot(l2, L2(virt)))).Table? && old(vm.pool) == []
    ensures l3 != 0 ==> ThirdLevel(vm.mem, vm.own, root, virt, l2, l3)
  {
    ghost var m, own, pool := vm.mem, vm.own, vm.pool;
    IndicesInRange(virt);
    l3 := NextTable(vm, l2, L2(virt), true);
    SameWalksSameViews(vm.spaces, m, vm.mem);
    ThirdFound(m, own, pool, vm.mem, vm.own, vm.pool, root, virt, l2, l3);
  }

  lemma ThirdFound(m: Memory<Word>, own: Owners<Word>, pool: seq<Word>, n: Memory<Word>, later: Owners<Word>, left: seq<Word>,
                   root: Word, virt: Word, l2: Word, l3: Word)
    requires SecondLevel(m, own, root, virt, l2) && IsRoot(later, root) && LookedUp(m, own, pool, n, later, left, l2, L2(virt), true, l3)
    ensures l3 != 0 ==> ThirdLevel(n, later, root, virt, l2, l3)
  {
    if l3 != 0 {
      SecondKept(m, n, own, later, root, virt, l2);
    }
  }

  /** The last-level table behind `virt`; a 2 MiB block in its place is split. */
  method ThirdTable(vm: Tables, root: Word, virt: Word, l2: Word) returns (l3: Word)
    requires Ready(vm) && root in vm.spaces && SecondLevel(vm.mem, vm.own, root, virt, l2)
    modifies vm`mem, vm`pool, vm`own, vm`log
    ensures Ready(vm) && SameViews(vm.spaces, old(vm.mem), vm.mem)
    ensures l3 == 0 <==> TablesNeeded(old(vm.mem), root, virt) > |old(vm.pool)|
    ensures l3 != 0 ==> ThirdLevel(vm.mem, vm.own, root, virt, l2, l3)
  {
    var entry := Read(FORMAT, vm.mem, Slot(l2, L2(virt)));
    if entry & VALID != 0 && entry & TABLE == 0 {
      KindBlock(2, entry);
      l3 := SplitBlock(vm, root, virt, l2);
      if l3 == 0 { return; }
    } else {
      NotABlock(entry);
    }
    l3 := MakeThird(vm, root, virt, l2);
  }

  /** A root that shares the kernel's mappings and has none of its own; 0 when memory is exhausted. */
  method CreateAddressSpace(vm: Tables, kernel: Word) returns (copy: Word)
    requires Ready(vm) && kernel in vm.spaces && Bare(vm.mem, kernel)
    modifies vm
    ensures Ready(vm) && SameViews(old(vm.spaces), old(vm.mem), vm.mem)
    ensures copy == 0 <==> old(vm.pool) == []
    ensures copy == 0 ==> vm.spaces == old(vm.spaces)
    ensures copy != 0 ==> copy !in old(vm.spaces) && vm.spaces == old(vm.spaces) + {copy} && Bare(vm.mem, copy)
    ensures copy != 0 ==> forall p :: IsPath(p) ==> View(vm.mem, copy, p) == View(old(vm.mem), kernel, p)
  {
    copy := vm.AllocTable();
    SameWalksSameViews(vm.spaces, old(vm.mem), vm.mem);
    if copy == 0 { return; }
    CopyRoot(vm, kernel, copy);
    SameWalksSameViews(vm.spaces, old(vm.mem), vm.mem);
    BareCopy(vm.mem, vm.own, kernel, copy);
    vm.Adopt(kernel, copy);
  }

  method CopyRoot(vm: Tables, kernel: Word, copy: Word)
    requires vm.f == FORMAT && WellFormed(FORMAT, vm.mem, vm.own, vm.spaces) && vm.Session() && kernel in vm.spaces && !Owned(vm.own, copy)
    modifies vm`mem, vm`log
    ensures WellFormed(FORMAT, vm.mem, vm.own, vm.spaces) && vm.Session() && SameWalks(FORMAT, vm.spaces, old(vm.mem), vm.mem)
    ensures AgreeOffTable(FORMAT, old(vm.mem), vm.mem, copy)
    ensures forall i :: Read(FORMAT, vm.mem, Slot(copy, i)) == Read(FORMAT, vm.mem, Slot(kernel, i))
  {
    var i: Word := 0;
    while i < 512
      invariant i <= 512
      invariant WellFormed(FORMAT, vm.mem, vm.own, vm.spaces) && vm.Session() && SameWalks(FORMAT, vm.spaces, old(vm.mem), vm.mem)
      invariant CopiedBelow(vm.mem, copy, kernel, i) && AgreeOffTable(FORMAT, old(vm.mem), vm.mem, copy)
      decreases 512 - i
    {
      ghost var before := vm.mem;
      vm.WriteOutside(Slot(copy, i), Read(FORMAT, vm.mem, Slot(kernel, i)));
      CopiedBelowNext(before, copy, kernel, i);
      SameWalksTrans(FORMAT, vm.spaces, old(vm.mem), before, vm.mem);
      i := i + 1;
    }
    BeyondTable(vm.mem, copy, kernel);
  }

  method Map(vm: Tables, root: Word, virt: Word, phys: Word, flags: Word)
    requires Ready(vm) && root in vm.spaces
    modifies vm
    ensures Ready(vm) && vm.spaces == old(vm.spaces) && Broadcast(vm, old(vm.mem), root)
    ensures
      if UserRange(virt, 0x1000) && PageAligned(virt) && PageAligned(phys) && TablesNeeded(old(vm.mem), root, virt) <= |old(vm.pool)|
      then PageUpdated(vm.spaces, old(vm.mem), vm.mem, root, PathOf(virt), Some(Pte(phys & ADDR, VALID | FlagsToDesc(flags))))
        && !InBlock(vm.mem, root, virt)
      else SameViews(vm.spaces, old(vm.mem), vm.mem)
  {
    if !UserRange(virt, 0x1000) || virt & PAGE_OFFSET != 0 || phys & PAGE_OFFSET != 0 { return; }
    vm.Lock(root);
    var l2 := SecondTable(vm, root, virt);
    if l2 != 0 {
      var l3 := ThirdTable(vm, root, virt, l2);
      if l3 != 0 {
        PageWordPte(phys, flags);
        SetPage(vm, root, virt, l3, PageWord(phys, flags), l2);
      }
    }
    SectionBroadcasts(vm, old(vm.mem), root);
  }

  method Map2mb(vm: Tables, root: Word, virt: Word, phys: Word, flags: Word)
    requires Ready(vm) && root in vm.spaces
    modifies vm
    ensures Ready(vm) && vm.spaces == old(vm.spaces) && Broadcast(vm, old(vm.mem), root)
    ensures
      if UserRange(virt, 0x20_0000) && BlockAligned(virt) && BlockAligned(phys) && RoomForBlock(old(vm.mem), old(vm.pool), root, virt)
      then BlockUpdated(vm.spaces, old(vm.mem), vm.mem, root, PathOf(virt), BlockWord(phys, flags))
      else SameViews(vm.spaces, old(vm.mem), vm.mem)
  {
    if !UserRange(virt, 0x20_0000) || virt & BLOCK_OFFSET != 0 || phys & BLOCK_OFFSET != 0 { return; }
    BlockWordIsBlock(phys, flags);
    vm.Lock(root);
    var l2 := SecondTable(vm, root, virt);
    if l2 != 0 {
      PlaceBlock(vm, root, virt, l2, BlockWord(phys, flags), old(vm.mem));
    }
    SectionBroadcasts(vm, old(vm.mem), root);
  }

  /** Writes a block descriptor, unless a table is in its place. */
  method PlaceBlock(vm: Tables, root: Word, virt: Word, l2: Word, w: Word, ghost first: Memory<Word>)
    requires Ready(vm) && root in vm.spaces && SecondLevel(vm.mem, vm.own, root, virt, l2) && IsBlockEntry(w)
    requires SameViews(vm.spaces, first, vm.mem)
    modifies vm`mem, vm`log
    ensures Ready(vm)
    ensures if TablesNeeded(old(vm.mem), root, virt) == 0 then SameViews(vm.spaces, first, vm.mem)
            else BlockUpdated(vm.spaces, first, vm.mem, root, PathOf(virt), w)
  {
    var entry := Read(FORMAT, vm.mem, Slot(l2, L2(virt)));
    if entry & VALID != 0 && entry & TABLE != 0 {
      KindTable(2, entry);
      return;
    }
    NotATable(entry);
    ghost var before := vm.mem;
    SetBlock(vm, root, virt, l2, w);
    BlockUpdatedTrans(vm.spaces, first, before, vm.mem, root, PathOf(virt), w);
  }

  method Unmap(vm: Tables, root: Word, virt: Word)
    requires Ready(vm) && root in vm.spaces
    modifies vm
    ensures Ready(vm) && vm.spaces == old(vm.spaces) && vm.pool == old(vm.pool) && Broadcast(vm, old(vm.mem), root)
    ensures
      if !UserRange(virt, 0x1000) || !PageAligned(virt) then SameViews(vm.spaces, old(vm.mem), vm.mem)
      else if InBlock(old(vm.mem), root, virt) then BlockUpdated(vm.spaces, old(vm.mem), vm.mem, root, PathOf(virt), 0)
      else PageUpdated(vm.spaces, old(vm.mem), vm.mem, root, PathOf(virt), None)
  {
    if !UserRange(virt, 0x1000) || virt & PAGE_OFFSET != 0 { return; }
    vm.Lock(root);
    var l2 := FindSecond(vm, root, virt);
    if l2 == 0 {
      NoSecond(vm.mem, root, virt);
      return;
    }
    var entry := Read(FORMAT, vm.mem, Slot(l2, L2(virt)));
    if entry & VALID != 0 && entry & TABLE == 0 {
      KindBlock(2, entry);
      SetBlock(vm, root, virt, l2, 0);
    } else {
      var l3 := FindThird(vm, root, virt, l2);
      if l3 == 0 {
        NoThird(vm.mem, root, virt, l2);
        return;
      }
      SetPage(vm, root, virt, l3, 0, l2);
    }
    SectionBroadcasts(vm, old(vm.mem), root);
  }

  method FindSecond(vm: Tables, root: Word, virt: Word) returns (l2: Word)
    requires Ready(vm) && root in vm.spaces && UserRange(virt, 1)
    ensures l2 != 0 ==> SecondLevel(vm.mem, vm.own, root, virt, l2)
    ensures l2 == 0 ==> FORMAT.kind(3, Read(FORMAT, vm.mem, Slot(root, L1(virt)))) == Hole
  {
    UserIsPrivate(virt);
    TopEntry(vm.mem, vm.own, root, L1(virt));
    l2 := FindTable(vm, root, L1(virt));
  }

  method FindThird(vm: Tables, root: Word, virt: Word, l2: Word) returns (l3: Word)
    requires Ready(vm) && root in vm.spaces && SecondLevel(vm.mem, vm.own, root, virt, l2)
    ensures l3 != 0 ==> ThirdLevel(vm.mem, vm.own, root, virt, l2, l3)
    ensures l3 == 0 ==> !FORMAT.kind(2, Read(FORMAT, vm.mem, Slot(l2, L2(virt)))).Table?
  {
    l3 := FindTable(vm, l2, L2(virt));
  }

  method Protect(vm: Tables, root: Word, virt: Word, flags: Word) returns (done: bool)
    requires Ready(vm) && root in vm.spaces
    modifies vm
    ensures Ready(vm) && vm.spaces == old(vm.spaces) && vm.pool == old(vm.pool) && Broadcast(vm, old(vm.mem), root)
    ensures done <==> UserRange(virt, 0x1000) && PageAligned(virt) && !InBlock(old(vm.mem), root, virt) && View(old(vm.mem), root, PathOf(virt)).Some?
    ensures if done then PageUpdated(vm.spaces, old(vm.mem), vm.mem, root, PathOf(virt), Some(Protected(View(old(vm.mem), root, PathOf(virt)).value, flags)))
            else SameViews(vm.spaces, old(vm.mem), vm.mem)
  {
    if !UserRange(virt, 0x1000) || virt & PAGE_OFFSET != 0 { return false; }
    vm.Lock(root);
    var l2 := FindSecond(vm, root, virt);
    if l2 == 0 {
      NoSecond(vm.mem, root, virt);
      return false;
    }
    var entry := Read(FORMAT, vm.mem, Slot(l2, L2(virt)));
    if entry & VALID != 0 && entry & TABLE == 0 {
      BlockThere(vm.mem, root, virt, l2);
      return false;
    }
    NotABlock(entry);
    done := ProtectPage(vm, root, virt, l2, flags);
    SectionBroadcasts(vm, old(vm.mem), root);
  }

  method ProtectPage(vm: Tables, root: Word, virt: Word, l2: Word, flags: Word) returns (done: bool)
    requires Ready(vm) && root in vm.spaces && SecondLevel(vm.mem, vm.own, root, virt, l2)
    requires FORMAT.kind(2, Read(FORMAT, vm.mem, Slot(l2, L2(virt)))) != Leaf
    modifies vm`mem, vm`log
    ensures Ready(vm) && !InBlock(old(vm.mem), root, virt)
    ensures done <==> View(old(vm.mem), root, PathOf(virt)).Some?
    ensures if done then PageUpdated(vm.spaces, old(vm.mem), vm.mem, root, PathOf(virt), Some(Protected(View(old(vm.mem), root, PathOf(virt)).value, flags)))
            else SameViews(vm.spaces, old(vm.mem), vm.mem)
  {
    var l3 := FindThird(vm, root, virt, l2);
    if l3 == 0 {
      NoThird(vm.mem, root, virt, l2);
      return false;
    }
    PageThere(vm.mem, vm.own, root, virt, l2, l3);
    var w := Read(FORMAT, vm.mem, Slot(l3, L3(virt)));
    if w & VALID == 0 { return false; }
    ProtectedWord(w, flags);
    SetPage(vm, root, virt, l3, (w & !PERMISSIONS) | (FlagsToDesc(flags) & PERMISSIONS), l2);
    done := true;
  }

  /** The physical address behind `virt`, or 0. */
  method GetPhys(vm: Tables, root: Word, virt: Word) returns (phys: Word)
    requires Ready(vm) && root in vm.spaces
    ensures phys == PhysOf(View(vm.mem, root, PathOf(virt)), virt)
  {
    TopEntry(vm.mem, vm.own, root, L1(virt));
    var l2 := FindTable(vm, root, L1(virt));
    if l2 == 0 {
      NoSecond(vm.mem, root, virt);
      phys := 0;
    } else {
      ChildDepth(vm.own, root, L1(virt), l2);
      phys := GetPhysBlock(vm, root, virt, l2);
    }
  }

  lemma ChildDepth(own: Owners<Word>, t: Word, i: Word, next: Word)
    requires Owned(own, t) && Owned(own, next) && HomeOf(own, next) == Child(FORMAT, HomeOf(own, t), i)
    ensures Depth(own, next) == Depth(own, t) + 1
  {
  }

  method GetPhysBlock(vm: Tables, root: Word, virt: Word, l2: Word) returns (phys: Word)
    requires Ready(vm) && root in vm.spaces && Through(vm.mem, root, virt, l2) && Owned(vm.own, l2) && Depth(vm.own, l2) == 1
    ensures phys == PhysOf(View(vm.mem, root, PathOf(virt)), virt)
  {
    var entry := Read(FORMAT, vm.mem, Slot(l2, L2(virt)));
    if entry & VALID != 0 && entry & TABLE == 0 {
      BlockPhys(vm.mem, root, virt, l2);
      return (entry & ADDR & !BLOCK_OFFSET) | (virt & BLOCK_OFFSET);
    }
    NotABlock(entry);
    phys := GetPhysPage(vm, root, virt, l2);
  }

  method GetPhysPage(vm: Tables, root: Word, virt: Word, l2: Word) returns (phys: Word)
    requires Ready(vm) && root in vm.spaces && Through(vm.mem, root, virt, l2) && Owned(vm.own, l2) && Depth(vm.own, l2) == 1
    requires FORMAT.kind(2, Read(FORMAT, vm.mem, Slot(l2, L2(virt)))) != Leaf
    ensures phys == PhysOf(View(vm.mem, root, PathOf(virt)), virt)
  {
    var l3 := FindTable(vm, l2, L2(virt));
    if l3 == 0 {
      NoThird(vm.mem, root, virt, l2);
      return 0;
    }
    PageThere(vm.mem, vm.own, root, virt, l2, l3);
    var w := Read(FORMAT, vm.mem, Slot(l3, L3(virt)));
    if w & VALID == 0 { return 0; }
    return (w & ADDR) | (virt & PAGE_OFFSET);
  }

  /** The physical address behind `virt` if user code may use it so, else 0. */
  method GetUserPhys(vm: Tables, root: Word, virt: Word, write: bool) returns (phys: Word)
    requires Ready(vm) && root in vm.spaces
    ensures phys == if UserRange(virt, 1) then UserPhys(View(vm.mem, root, PathOf(virt)), virt, write) else 0
  {
    if !UserRange(virt, 1) { return 0; }
    var table, level, path := root, 0, PathOf(virt);        // the source counts shift = 30 - 9 * level
    while true
      invariant OnTheWay(FORMAT, vm.mem, vm.own, root, path, table, level)
      decreases 3 - level
    {
      var entry := Read(FORMAT, vm.mem, Slot(table, path[level]));
      if entry & VALID == 0 {
        WayBreaks(vm.mem, vm.own, root, path, table, level);
        return 0;
      }
      if level == 2 || entry & TABLE == 0 {
        WayEnds(vm.mem, vm.own, root, path, table, level, virt, write);
        return UserLeaf(entry, virt, OffsetMask(level), write);
      }
      WayGoesOn(vm.mem, vm.own, root, path, table, level);
      // A table descriptor can forbid user access or writes below it.
      if entry & 0x2000_0000_0000_0000 != 0 || (write && entry & 0x4000_0000_0000_0000 != 0) { return 0; }
      table := entry & ADDR;
      level := level + 1;
    }
  }

  /** The meaning of an entry of a table in use. */
  ghost function Entry(vm: Tables, t: Word, i: Word): Kind<Word>
    reads vm
    requires Owned(vm.own, t) && Depth(vm.own, t) < 3
  {
    FORMAT.kind(3 - Depth(vm.own, t), Read(FORMAT, vm.mem, Slot(t, i)))
  }
}
