/** The AMD64 virtual memory manager: the routines that edit the page tables. */
module Amd64Vmm {
  import opened Options
  import opened Radix
  import opened Tlb
  import opened Amd64
  import opened PageTables
  import Shootdown

  /** Every root has the same identity map in its first slot. */
  ghost predicate Common(mem: Memory<Word>, spaces: set<Word>) {
    && Shares(FORMAT, mem, spaces)
    && forall r :: r in spaces ==> FORMAT.kind(4, Read(FORMAT, mem, Slot(r, 0))).Table?
  }

  lemma CommonKept(m: Memory<Word>, n: Memory<Word>, spaces: set<Word>)
    requires Common(m, spaces) && forall r :: r in spaces ==> Read(FORMAT, n, Slot(r, 0)) == Read(FORMAT, m, Slot(r, 0))
    ensures Common(n, spaces)
  {
    forall r, q, i | r in spaces && q in spaces && FORMAT.shared(i)
      ensures Read(FORMAT, n, Slot(r, i)) == Read(FORMAT, n, Slot(q, i))
    {
      assert i == 0;
      assert Read(FORMAT, m, Slot(r, i)) == Read(FORMAT, m, Slot(q, i));
    }
  }

  /** The tables are in this format and in order. */
  ghost predicate Ready(vm: Tables)
    reads vm
  {
    vm.f == FORMAT && vm.Valid() && Common(vm.mem, vm.spaces)
  }

  /** What was done to the tables since they were `before` is a critical section of a CPU on `root` that the shootdown
      protocol can carry out, and leaves every cache in agreement. */
  ghost predicate Interrupted(vm: Tables, before: Memory<Word>, root: Word)
    reads vm
  {
    vm.Section(before, root) && (vm.mem == before || Shootdown.ShootsDown(FORMAT, vm.spaces, root, before, vm.log, vm.mem))
  }

  lemma ZeroIsHole()
    ensures ZeroFits(FORMAT)
    ensures forall w: Word :: w & PRESENT == 0 ==> AlwaysHole(FORMAT, w)
  {
  }

  lemma LinkWord(t: Word, rest: nat, h: Home<Word>, i: Word)
    requires IsPage(t) && 1 < rest <= 4
    ensures FORMAT.kind(rest, t | LINK) == Table(t) && FORMAT.ok(h, i, t | LINK)
  {
  }

  lemma KindHole(rest: nat, w: Word)
    requires w & PRESENT == 0
    ensures FORMAT.kind(rest, w) == Hole
  {
  }

  lemma KindThere(rest: nat, w: Word)
    requires w & PRESENT != 0 && rest > 1
    ensures FORMAT.kind(rest, w) == if rest < 4 && w & LARGE != 0 then Leaf else Table(w & ADDR)
  {
  }

  lemma PathInRange(virt: Word)
    ensures IsPath(PathOf(virt))
  {
  }

  // ---- Leaf edits ---------------------------------------------------------

  /** `n` translates as `m` does, except that page `path` of `root` (of every root, if shared) is now `pte`. */
  ghost predicate PageUpdated(spaces: set<Word>, m: Memory<Word>, n: Memory<Word>, root: Word, path: Path<Word>, pte: Option<Pte>) {
    forall r, p :: r in spaces && IsPath(p) ==>
      View(n, r, p) == if Sees(FORMAT, root, path, r) && p == path then pte else View(m, r, p)
  }

  ghost predicate SameLarge(p: Path<Word>, q: Path<Word>)
    requires |p| == |q| == 4
  {
    p[0] == q[0] && p[1] == q[1] && p[2] == q[2]
  }

  /** `n` translates as `m` does, except that the pages of one 2 MiB range now go through word `w`. */
  ghost predicate LargeUpdated(spaces: set<Word>, m: Memory<Word>, n: Memory<Word>, root: Word, path: Path<Word>, w: Word) {
    |path| == 4 &&
    forall r, p :: r in spaces && IsPath(p) ==>
      View(n, r, p) == if Sees(FORMAT, root, path, r) && SameLarge(p, path) then LargePte(w, p) else View(m, r, p)
  }

  /** Every large page in `n` was there in `m`, or goes through one of the words `ws`. */
  ghost predicate LargeFrom(spaces: set<Word>, m: Memory<Word>, n: Memory<Word>, ws: set<Word>) {
    forall r, p :: r in spaces && IsPath(p) && Covered(n, r, p) ==>
      Walk(FORMAT, n, r, p) == Walk(FORMAT, m, r, p) || Walk(FORMAT, n, r, p).word in ws
  }

  lemma LargeFromSame(spaces: set<Word>, m: Memory<Word>, n: Memory<Word>)
    requires SameWalks(FORMAT, spaces, m, n)
    ensures LargeFrom(spaces, m, n, {})
  {
    forall r, p | r in spaces && IsPath(p)
      ensures Walk(FORMAT, n, r, p) == Walk(FORMAT, m, r, p)
    {
      assert IsAddress(FORMAT, p);
    }
  }

  lemma LargeFromTrans(spaces: set<Word>, l: Memory<Word>, m: Memory<Word>, n: Memory<Word>, ws: set<Word>)
    requires SameWalks(FORMAT, spaces, l, m) && LargeFrom(spaces, m, n, ws)
    ensures LargeFrom(spaces, l, n, ws)
  {
    forall r, p | r in spaces && IsPath(p)
      ensures Walk(FORMAT, m, r, p) == Walk(FORMAT, l, r, p)
    {
      assert IsAddress(FORMAT, p);
    }
  }

  function PagePte(w: Word): Option<Pte> {
    if w & PRESENT == 0 then None else Some(Pte(w & ADDR, w & !ADDR))
  }

  function LargePte(w: Word, p: Path<Word>): Option<Pte>
    requires |p| == 4
  {
    if w & PRESENT == 0 then None else Some(Pte((w & ADDR & !LARGE_OFFSET) | (p[3] << 12), Attributes(w)))
  }

  /** A page-directory entry that is not a table. */
  predicate IsLargeEntry(w: Word) {
    w & LARGE != 0 || w & PRESENT == 0
  }

  lemma PageOutcome(s: Slot<Word>, w: Word, p: Path<Word>, h: Home<Word>)
    requires |p| == 4 && |h.prefix| == 3
    ensures PteOf(LeafOutcome(FORMAT, 1, s, w), p) == PagePte(w) && !FORMAT.kind(1, w).Table? && FORMAT.ok(h, s.index, w)
  {
  }

  lemma LargeOutcome(s: Slot<Word>, w: Word, p: Path<Word>, h: Home<Word>)
    requires IsLargeEntry(w) && |p| == 4 && |h.prefix| == 2
    ensures PteOf(LeafOutcome(FORMAT, 2, s, w), p) == LargePte(w, p) && !FORMAT.kind(2, w).Table? && FORMAT.ok(h, s.index, w)
  {
  }

  lemma PageStore(m: Memory<Word>, own: Owners<Word>, spaces: set<Word>, root: Word, path: Path<Word>, pt: Word, w: Word)
    requires WellFormed(FORMAT, m, own, spaces) && Common(m, spaces) && root in spaces && IsPath(path)
    requires Reaches(FORMAT, m, own, root, path, 3, pt)
    ensures WellFormed(FORMAT, m[Slot(pt, path[3]) := w], own, spaces)
    ensures PageUpdated(spaces, m, m[Slot(pt, path[3]) := w], root, path, PagePte(w))
  {
    var s := Slot(pt, path[3]);
    PageOutcome(s, w, path, HomeOf(own, pt));
    LeafUnshared(FORMAT, m, own, s, w);
    forall r, p | r in spaces && IsPath(p)
      ensures View(m[s := w], r, p) == if Sees(FORMAT, root, path, r) && p == path then PagePte(w) else View(m, r, p)
    {
      PageView(m, own, spaces, root, path, pt, w, r, p);
    }
  }

  /** One walk after the store. */
  lemma PageView(m: Memory<Word>, own: Owners<Word>, spaces: set<Word>, root: Word, path: Path<Word>, pt: Word, w: Word, r: Word, p: Path<Word>)
    requires WellFormed(FORMAT, m, own, spaces) && Common(m, spaces) && root in spaces && IsPath(path)
    requires Reaches(FORMAT, m, own, root, path, 3, pt) && r in spaces && IsPath(p)
    ensures View(m[Slot(pt, path[3]) := w], r, p) == if Sees(FORMAT, root, path, r) && p == path then PagePte(w) else View(m, r, p)
  {
    var s := Slot(pt, path[3]);
    PageOutcome(s, w, path, HomeOf(own, pt));
    LeafStore(FORMAT, m, own, spaces, s, w, root, path, 3, r, p);
    WholePath(path, p);
  }

  /** It makes no large page, and the page itself is then none. */
  lemma PageIsSmall(m: Memory<Word>, own: Owners<Word>, spaces: set<Word>, root: Word, path: Path<Word>, pt: Word, w: Word)
    requires WellFormed(FORMAT, m, own, spaces) && Common(m, spaces) && root in spaces && IsPath(path)
    requires Reaches(FORMAT, m, own, root, path, 3, pt)
    ensures LargeFrom(spaces, m, m[Slot(pt, path[3]) := w], {}) && !Covered(m[Slot(pt, path[3]) := w], root, path)
  {
    var s := Slot(pt, path[3]);
    PageOutcome(s, w, path, HomeOf(own, pt));
    forall r, p | r in spaces && IsPath(p)
      ensures Covered(m[s := w], r, p) ==> Walk(FORMAT, m[s := w], r, p) == Walk(FORMAT, m, r, p)
      ensures r == root && p == path ==> !Covered(m[s := w], r, p)
    {
      LeafStore(FORMAT, m, own, spaces, s, w, root, path, 3, r, p);
      WholePath(path, p);
    }
  }

  /** A large page it makes goes through the word stored. */
  lemma LargeIsNew(m: Memory<Word>, own: Owners<Word>, spaces: set<Word>, root: Word, path: Path<Word>, pd: Word, w: Word)
    requires WellFormed(FORMAT, m, own, spaces) && Common(m, spaces) && root in spaces && IsPath(path)
    requires Reaches(FORMAT, m, own, root, path, 2, pd) && IsLargeEntry(w)
    ensures LargeFrom(spaces, m, m[Slot(pd, path[2]) := w], if w == 0 then {} else {w})
  {
    var s := Slot(pd, path[2]);
    LargeOutcome(s, w, path, HomeOf(own, pd));
    forall r, p | r in spaces && IsPath(p) && Covered(m[s := w], r, p)
      ensures Walk(FORMAT, m[s := w], r, p) == Walk(FORMAT, m, r, p) || (w != 0 && Walk(FORMAT, m[s := w], r, p).word == w)
    {
      LeafStore(FORMAT, m, own, spaces, s, w, root, path, 2, r, p);
      WholePath(path, p);
      if w == 0 { KindHole(2, w); }
    }
  }

  lemma WholePath(path: Path<Word>, p: Path<Word>)
    requires |path| == |p| == 4
    ensures path[..4] <= p <==> p == path
    ensures path[..3] <= p <==> SameLarge(p, path)
  {
  }

  lemma LargeStore(m: Memory<Word>, own: Owners<Word>, spaces: set<Word>, root: Word, path: Path<Word>, pd: Word, w: Word)
    requires WellFormed(FORMAT, m, own, spaces) && Common(m, spaces) && root in spaces && IsPath(path)
    requires Reaches(FORMAT, m, own, root, path, 2, pd) && IsLargeEntry(w)
    ensures WellFormed(FORMAT, m[Slot(pd, path[2]) := w], own, spaces)
    ensures LargeUpdated(spaces, m, m[Slot(pd, path[2]) := w], root, path, w)
  {
    var s := Slot(pd, path[2]);
    LargeOutcome(s, w, path, HomeOf(own, pd));
    LeafUnshared(FORMAT, m, own, s, w);
    forall r, p | r in spaces && IsPath(p)
      ensures View(m[s := w], r, p) == if Sees(FORMAT, root, path, r) && SameLarge(p, path) then LargePte(w, p) else View(m, r, p)
    {
      LargeView(m, own, spaces, root, path, pd, w, r, p);
    }
  }

  lemma LargeView(m: Memory<Word>, own: Owners<Word>, spaces: set<Word>, root: Word, path: Path<Word>, pd: Word, w: Word, r: Word, p: Path<Word>)
    requires WellFormed(FORMAT, m, own, spaces) && Common(m, spaces) && root in spaces && IsPath(path)
    requires Reaches(FORMAT, m, own, root, path, 2, pd) && IsLargeEntry(w) && r in spaces && IsPath(p)
    ensures View(m[Slot(pd, path[2]) := w], r, p) == if Sees(FORMAT, root, path, r) && SameLarge(p, path) then LargePte(w, p) else View(m, r, p)
  {
    var s := Slot(pd, path[2]);
    LargeOutcome(s, w, path, HomeOf(own, pd));
    LargeOutcome(s, w, p, HomeOf(own, pd));
    LeafStore(FORMAT, m, own, spaces, s, w, root, path, 2, r, p);
    WholePath(path, p);
  }

  /** Which CPUs a change to `virt` in `root` concerns: those on the root, or all for shared addresses. */
  function Audience(root: Word, virt: Word): Option<Word> {
    if UserRange(virt, 1) then Some(root) else None
  }

  /** Stores an entry and shoots down the translations of `virt`. */
  method SetEntry(vm: Tables, s: Slot<Word>, w: Word, root: Word, virt: Word)
    requires vm.f == FORMAT && vm.Session() && vm.holder == root
    requires Covers(FORMAT, vm.spaces, vm.mem, s, Flush(Page(PathOf(virt)), Audience(root, virt)))
    modifies vm`mem, vm`log
    ensures vm.mem == old(vm.mem)[s := w] && vm.Session()
  {
    ghost var flush := Flush(Page(PathOf(virt)), Audience(root, virt));
    LogStoreFlush(FORMAT, vm.spaces, vm.start, vm.log, s, w, flush);
    vm.mem := vm.mem[s := w];
    vm.log := vm.log + [Store(s, w), flush];
  }

  /** Writes entry `PtIndex(virt)` of page `pt`: the entry behind `virt` if `pt` is its table, and nothing to do with it if `pt` is no table. */
  method SetPage(vm: Tables, root: Word, virt: Word, pt: Word, w: Word)
    requires Ready(vm) && root in vm.spaces && vm.holder == root && (UserRange(virt, 1) || virt < USER_BEGIN)
    requires Owned(vm.own, pt) ==> Reaches(FORMAT, vm.mem, vm.own, root, PathOf(virt), 3, pt)
    modifies vm`mem, vm`log
    ensures Ready(vm)
    ensures if Owned(vm.own, pt) then PageUpdated(vm.spaces, old(vm.mem), vm.mem, root, PathOf(virt), PagePte(w))
              && !Covered(vm.mem, root, PathOf(virt))
            else SameViews(vm.spaces, old(vm.mem), vm.mem)
    ensures LargeFrom(vm.spaces, old(vm.mem), vm.mem, {})
  {
    PathInRange(virt);
    if Owned(vm.own, pt) {
      AudienceCovers(vm.mem, vm.own, vm.spaces, root, virt, 3, pt);
      PageStore(vm.mem, vm.own, vm.spaces, root, PathOf(virt), pt, w);
      PageIsSmall(vm.mem, vm.own, vm.spaces, root, PathOf(virt), pt, w);
      DeepIsNoRoot(vm.own, vm.spaces, pt);
    } else {
      StrayStore(vm.mem, vm.own, vm.spaces, Slot(pt, PtIndex(virt)), w, root, virt);
    }
    SetEntry(vm, Slot(pt, PtIndex(virt)), w, root, virt);
    CommonKept(old(vm.mem), vm.mem, vm.spaces);
  }

  /** A store into a page that is no table changes no translation. */
  lemma StrayStore(m: Memory<Word>, own: Owners<Word>, spaces: set<Word>, s: Slot<Word>, w: Word, root: Word, virt: Word)
    requires WellFormed(FORMAT, m, own, spaces) && !Owned(own, s.table) && s.index < 512
    ensures Covers(FORMAT, spaces, m, s, Flush(Page(PathOf(virt)), Audience(root, virt)))
    ensures WellFormed(FORMAT, m[s := w], own, spaces) && SameViews(spaces, m, m[s := w]) && s.table !in spaces
    ensures LargeFrom(spaces, m, m[s := w], {})
  {
    StoreOutside(FORMAT, spaces, own, m, s, w);
    SameWalksSameViews(spaces, m, m[s := w]);
    LargeFromSame(spaces, m, m[s := w]);
  }

  /** Writes the page-directory entry behind `virt`, where no table hangs. */
  method SetLarge(vm: Tables, root: Word, virt: Word, pd: Word, w: Word)
    requires Ready(vm) && root in vm.spaces && vm.holder == root && (UserRange(virt, 1) || virt < USER_BEGIN)
    requires Reaches(FORMAT, vm.mem, vm.own, root, PathOf(virt), 2, pd)
    requires IsLargeEntry(Read(FORMAT, vm.mem, Slot(pd, PdIndex(virt)))) && IsLargeEntry(w)
    modifies vm`mem, vm`log
    ensures Ready(vm) && LargeUpdated(vm.spaces, old(vm.mem), vm.mem, root, PathOf(virt), w)
    ensures LargeFrom(vm.spaces, old(vm.mem), vm.mem, if w == 0 then {} else {w})
  {
    PathInRange(virt);
    AudienceCovers(vm.mem, vm.own, vm.spaces, root, virt, 2, pd);
    LargeStore(vm.mem, vm.own, vm.spaces, root, PathOf(virt), pd, w);
    LargeIsNew(vm.mem, vm.own, vm.spaces, root, PathOf(virt), pd, w);
    SetEntry(vm, Slot(pd, PdIndex(virt)), w, root, virt);
    DeepIsNoRoot(vm.own, vm.spaces, pd);
    CommonKept(old(vm.mem), vm.mem, vm.spaces);
  }

  lemma DeepIsNoRoot(own: Owners<Word>, spaces: set<Word>, t: Word)
    requires Roots(own, spaces) && Owned(own, t) && Depth(own, t) > 0
    ensures t !in spaces
  {
  }

  lemma AudienceCovers(m: Memory<Word>, own: Owners<Word>, spaces: set<Word>, root: Word, virt: Word, k: nat, t: Word)
    requires WellFormed(FORMAT, m, own, spaces) && 0 < k < 4 && Reaches(FORMAT, m, own, root, PathOf(virt), k, t)
    requires UserRange(virt, 1) || virt < USER_BEGIN
    requires k == 3 || (k == 2 && IsLargeEntry(Read(FORMAT, m, Slot(t, PathOf(virt)[k]))))
    ensures Covers(FORMAT, spaces, m, Slot(t, PathOf(virt)[k]), Flush(Page(PathOf(virt)), Audience(root, virt)))
  {
    var w := Read(FORMAT, m, Slot(t, PathOf(virt)[k]));
    if k == 3 { PageOutcome(Slot(t, PathOf(virt)[k]), w, PathOf(virt), HomeOf(own, t)); }
    else { LargeOutcome(Slot(t, PathOf(virt)[k]), w, PathOf(virt), HomeOf(own, t)); }
    if UserRange(virt, 1) { UserIsPrivate(virt); }
    PathCovers(FORMAT, spaces, own, m, root, PathOf(virt), k, t, Audience(root, virt));
  }

  // ---- Finding and making tables ------------------------------------------

  /** What the walk of `path` meets `k` levels down, in table `t`. */
  ghost function Entry(mem: Memory<Word>, t: Word, path: Path<Word>, k: nat): Kind<Word>
    requires k < 4 == |path|
  {
    FORMAT.kind(4 - k, Read(FORMAT, mem, Slot(t, path[k])))
  }

  /**
   * The table behind an entry, or 0: the lookup that makes none. The page size bit is not
   * looked at, so a large page is returned as if it were a table.
   */
  method FindTable(vm: Tables, ghost root: Word, ghost path: Path<Word>, ghost k: nat, t: Word, i: Word) returns (next: Word)
    requires Ready(vm) && IsPath(path) && k < 3 && Reaches(FORMAT, vm.mem, vm.own, root, path, k, t) && i == path[k]
    ensures match Entry(vm.mem, t, path, k)
      case Hole => next == 0
      case Leaf => next == Read(FORMAT, vm.mem, Slot(t, i)) & ADDR
      case Table(_) => next != 0 && Reaches(FORMAT, vm.mem, vm.own, root, path, k + 1, next)
    ensures Entry(vm.mem, t, path, k).Table? ==> Entry(vm.mem, t, path, k) == Table(next)
  {
    var entry := Read(FORMAT, vm.mem, Slot(t, i));
    if entry & PRESENT != 0 {
      KindThere(4 - k, entry);
      next := entry & ADDR;
      if Entry(vm.mem, t, path, k).Table? {
        ReachNext(FORMAT, vm.mem, vm.own, root, path, k, t, next);
      }
    } else {
      KindHole(4 - k, entry);
      next := 0;
    }
  }

  /** The lookup that makes the table if there is none; 0 when memory is exhausted. */
  method NextTable(vm: Tables, ghost root: Word, ghost path: Path<Word>, ghost k: nat, t: Word, i: Word) returns (next: Word)
    requires Ready(vm) && root in vm.spaces && IsPath(path) && k < 3 && Reaches(FORMAT, vm.mem, vm.own, root, path, k, t) && i == path[k]
    modifies vm`mem, vm`pool, vm`own, vm`log
    ensures Ready(vm) && SameWalks(FORMAT, vm.spaces, old(vm.mem), vm.mem)
    ensures old(Entry(vm.mem, t, path, k)).Leaf? ==> next == old(Read(FORMAT, vm.mem, Slot(t, i))) & ADDR
    ensures Looked(FORMAT, old(vm.mem), old(vm.own), |old(vm.pool)|, vm.mem, vm.own, |vm.pool|, root, path, k, t, next)
  {
    if Read(FORMAT, vm.mem, Slot(t, i)) & PRESENT != 0 {
      KindThere(4 - k, Read(FORMAT, vm.mem, Slot(t, i)));
      next := FindTable(vm, root, path, k, t, i);
      FoundIsLooked(vm.mem, vm.own, |vm.pool|, root, path, k, t, next);
    } else {
      KindHole(4 - k, Read(FORMAT, vm.mem, Slot(t, i)));
      next := NewTable(vm, root, path, k, t, i);
    }
  }

  lemma FoundIsLooked(m: Memory<Word>, own: Owners<Word>, left: nat, root: Word, path: Path<Word>, k: nat, t: Word, next: Word)
    requires k < 3 && |path| == 4 && Entry(m, t, path, k) != Hole && (Entry(m, t, path, k).Table? ==> Entry(m, t, path, k) == Table(next))
    ensures Looked(FORMAT, m, own, left, m, own, left, root, path, k, t, next)
  {
  }

  lemma NewIsLooked(m: Memory<Word>, own: Owners<Word>, left: nat, n: Memory<Word>, later: Owners<Word>, leaves: nat,
                    root: Word, path: Path<Word>, k: nat, t: Word, next: Word)
    requires k < 3 && |path| == 4 && Entry(m, t, path, k) == Hole && (next == 0 <==> left == 0)
    requires next == 0 ==> n == m && later == own && leaves == left
    requires next != 0 ==> leaves == left - 1 && Blank(FORMAT, n, next) && Reaches(FORMAT, n, later, root, path, k + 1, next)
    ensures Looked(FORMAT, m, own, left, n, later, leaves, root, path, k, t, next)
  {
  }

  method NewTable(vm: Tables, ghost root: Word, ghost path: Path<Word>, ghost k: nat, t: Word, i: Word) returns (next: Word)
    requires Ready(vm) && root in vm.spaces && IsPath(path) && k < 3 && Reaches(FORMAT, vm.mem, vm.own, root, path, k, t) && i == path[k]
    requires Read(FORMAT, vm.mem, Slot(t, i)) & PRESENT == 0
    modifies vm`mem, vm`pool, vm`own, vm`log
    ensures Ready(vm) && SameWalks(FORMAT, vm.spaces, old(vm.mem), vm.mem)
    ensures next == 0 <==> old(vm.pool) == []
    ensures vm.pool == if next == 0 then old(vm.pool) else old(vm.pool)[1..]
    ensures Looked(FORMAT, old(vm.mem), old(vm.own), |old(vm.pool)|, vm.mem, vm.own, |vm.pool|, root, path, k, t, next)
  {
    ghost var m, own, left := vm.mem, vm.own, |vm.pool|;
    KindHole(4 - k, Read(FORMAT, vm.mem, Slot(t, i)));
    next := vm.AllocTable();
    if next != 0 {
      AllocKeeps(m, vm.mem, vm.own, vm.spaces, next, root, path, k, t);
      ghost var before := vm.mem;
      Link(vm, root, path, k, t, i, next);
      SameWalksTrans(FORMAT, vm.spaces, m, before, vm.mem);
    }
    NewIsLooked(m, own, left, vm.mem, vm.own, |vm.pool|, root, path, k, t, next);
  }

  lemma AllocKeeps(m: Memory<Word>, n: Memory<Word>, own: Owners<Word>, spaces: set<Word>, page: Word, root: Word, path: Path<Word>, k: nat, t: Word)
    requires WellFormed(FORMAT, m, own, spaces) && Common(m, spaces) && !Owned(own, page) && AgreeOffTable(FORMAT, m, n, page)
    requires k < 3 && Reaches(FORMAT, m, own, root, path, k, t)
    ensures Common(n, spaces) && Reaches(FORMAT, n, own, root, path, k, t)
    ensures Read(FORMAT, n, Slot(t, path[k])) == Read(FORMAT, m, Slot(t, path[k]))
  {
    CommonKept(m, n, spaces);
    DescendKept(FORMAT, m, n, own, root, path, k);
  }

  /** Publishes a blank page as the table behind an empty entry. No flush: nothing was cached through it. */
  method Link(vm: Tables, ghost root: Word, ghost path: Path<Word>, ghost k: nat, t: Word, i: Word, next: Word)
    requires Ready(vm) && root in vm.spaces && IsPath(path) && k < 3 && Reaches(FORMAT, vm.mem, vm.own, root, path, k, t) && i == path[k]
    requires Read(FORMAT, vm.mem, Slot(t, i)) & PRESENT == 0
    requires !Owned(vm.own, next) && IsPage(next) && Blank(FORMAT, vm.mem, next) && next in vm.arena && next !in vm.pool
    modifies vm`mem, vm`own, vm`log
    ensures Ready(vm) && SameWalks(FORMAT, vm.spaces, old(vm.mem), vm.mem)
    ensures Blank(FORMAT, vm.mem, next) && Reaches(FORMAT, vm.mem, vm.own, root, path, k + 1, next)
  {
    LinkEffect(vm.mem, vm.own, vm.spaces, root, path, k, t, next);
    LogStore(FORMAT, vm.spaces, vm.start, vm.log, Slot(t, i), next | LINK);
    vm.mem := vm.mem[Slot(t, i) := next | LINK];
    vm.own := Extend(vm.own, next, Child(FORMAT, HomeOf(vm.own, t), i));
    vm.log := vm.log + [Store(Slot(t, i), next | LINK)];
  }

  lemma LinkEffect(m: Memory<Word>, own: Owners<Word>, spaces: set<Word>, root: Word, path: Path<Word>, k: nat, t: Word, next: Word)
    requires WellFormed(FORMAT, m, own, spaces) && Common(m, spaces) && root in spaces && IsPath(path)
    requires k < 3 && Reaches(FORMAT, m, own, root, path, k, t) && Read(FORMAT, m, Slot(t, path[k])) & PRESENT == 0
    requires !Owned(own, next) && IsPage(next) && Blank(FORMAT, m, next)
    ensures !Live(FORMAT, spaces, m, Slot(t, path[k]))
    ensures var n, later := m[Slot(t, path[k]) := next | LINK], Extend(own, next, Child(FORMAT, HomeOf(own, t), path[k]));
      && WellFormed(FORMAT, n, later, spaces) && Common(n, spaces) && SameWalks(FORMAT, spaces, m, n)
      && Reaches(FORMAT, n, later, root, path, k + 1, next)
  {
    ZeroIsHole();
    LinkWord(next, 4 - k, HomeOf(own, t), path[k]);
    LinkReaches(FORMAT, m, own, spaces, root, path, k, t, next | LINK, next);
    LinkKeeps(m, own, spaces, root, path, k, t, next | LINK);
  }

  lemma LinkKeeps(m: Memory<Word>, own: Owners<Word>, spaces: set<Word>, root: Word, path: Path<Word>, k: nat, t: Word, w: Word)
    requires Roots(own, spaces) && Common(m, spaces) && root in spaces && k < 3 && Reaches(FORMAT, m, own, root, path, k, t)
    requires Read(FORMAT, m, Slot(t, path[k])) & PRESENT == 0
    ensures Common(m[Slot(t, path[k]) := w], spaces)
  {
    var n := m[Slot(t, path[k]) := w];
    forall r | r in spaces
      ensures Read(FORMAT, n, Slot(r, 0)) == Read(FORMAT, m, Slot(r, 0))
    {
      if Slot(r, 0) == Slot(t, path[k]) {
        KindHole(4, Read(FORMAT, m, Slot(r, 0)));
      }
    }
    CommonKept(m, n, spaces);
  }

  // ---- The two upper levels -----------------------------------------------

  /** A page larger than 4 KiB covers `path`. */
  ghost predicate Covered(mem: Memory<Word>, root: Word, path: Path<Word>)
    requires |path| == 4
  {
    var o := Walk(FORMAT, mem, root, path);
    o.Hit? && o.rest > 1
  }

  /** A 1 GiB page covers `path`. */
  ghost predicate InGiant(mem: Memory<Word>, root: Word, path: Path<Word>)
    requires |path| == 4
  {
    var o := Walk(FORMAT, mem, root, path);
    o.Hit? && o.rest == 3
  }

  lemma UserNotGiant(mem: Memory<Word>, own: Owners<Word>, root: Word, virt: Word)
    requires Unshared(FORMAT, mem, own) && IsRoot(own, root) && UserRange(virt, 1)
    ensures !InGiant(mem, root, PathOf(virt))
  {
    var path := PathOf(virt);
    UserIsPrivate(virt);
    RootReaches(mem, own, root, path);
    WalkFrom(mem, own, root, path, 0, root);
    if Entry(mem, root, path, 0).Table? {
      var pdpt := Entry(mem, root, path, 0).next;
      ReachNext(FORMAT, mem, own, root, path, 0, root, pdpt);
      WalkFrom(mem, own, root, path, 1, pdpt);
      assert Linked(FORMAT, mem, own, pdpt, path[1]);
      PrivateLink(HomeOf(own, pdpt), path[1], Read(FORMAT, mem, Slot(pdpt, path[1])));
    }
  }

  lemma PrivateLink(h: Home<Word>, i: Word, w: Word)
    requires FORMAT.ok(h, i, w) && h.root.Some? && |h.prefix| == 1
    ensures FORMAT.kind(3, w) != Leaf
  {
  }

  lemma RootReaches(mem: Memory<Word>, own: Owners<Word>, root: Word, path: Path<Word>)
    requires IsRoot(own, root) && |path| == 4
    ensures Reaches(FORMAT, mem, own, root, path, 0, root) && path[0..] == path
  {
  }

  /** The walk of `path` goes on from the table it reaches. */
  lemma WalkFrom(mem: Memory<Word>, own: Owners<Word>, root: Word, path: Path<Word>, k: nat, t: Word)
    requires |path| == 4 && k < 4 && Reaches(FORMAT, mem, own, root, path, k, t)
    ensures match Entry(mem, t, path, k)
      case Hole => Walk(FORMAT, mem, root, path) == Fault
      case Leaf => Walk(FORMAT, mem, root, path) == Hit(4 - k, Slot(t, path[k]), Read(FORMAT, mem, Slot(t, path[k])))
      case Table(next) => Walk(FORMAT, mem, root, path) == Walk(FORMAT, mem, next, path[k + 1..])
  {
    WalkDescend(FORMAT, mem, root, path, k);
    assert path[k..][1..] == path[k + 1..];
  }

  lemma TopIsLink(mem: Memory<Word>, t: Word, path: Path<Word>)
    requires |path| == 4
    ensures Entry(mem, t, path, 0) != Leaf
  {
  }

  /** The page directory on `path`, or 0. */
  method FindDirectory(vm: Tables, root: Word, i4: Word, i3: Word, ghost path: Path<Word>) returns (pd: Word)
    requires Ready(vm) && root in vm.spaces && IsPath(path) && i4 == path[0] && i3 == path[1] && !InGiant(vm.mem, root, path)
    ensures if pd == 0 then Walk(FORMAT, vm.mem, root, path) == Fault && Descend(FORMAT, vm.mem, root, path, 2) == None
            else Reaches(FORMAT, vm.mem, vm.own, root, path, 2, pd)
  {
    RootReaches(vm.mem, vm.own, root, path);
    TopIsLink(vm.mem, root, path);
    WalkFrom(vm.mem, vm.own, root, path, 0, root);
    var pdpt := FindTable(vm, root, path, 0, root, i4);
    if pdpt == 0 { return 0; }
    WalkFrom(vm.mem, vm.own, root, path, 1, pdpt);
    DescendOne(FORMAT, vm.mem, root, path, 1, pdpt);
    pd := FindTable(vm, root, path, 1, pdpt, i3);
  }

  lemma Start(mem: Memory<Word>, own: Owners<Word>, spaces: set<Word>, root: Word, path: Path<Word>, free: nat)
    requires WellFormed(FORMAT, mem, own, spaces) && root in spaces && IsPath(path)
    ensures Walk(FORMAT, mem, root, path).Hit? ==> Walk(FORMAT, mem, root, path).rest < 4
    ensures Built(FORMAT, spaces, mem, own, free, mem, own, free, root, path, 0, root)
  {
    RootReaches(mem, own, root, path);
    TopIsLink(mem, root, path);
    WalkFrom(mem, own, root, path, 0, root);
  }

  /** The page directory on `path`, made if need be; 0 when memory is exhausted. */
  method Directory(vm: Tables, root: Word, i4: Word, i3: Word, ghost path: Path<Word>) returns (pd: Word)
    requires Ready(vm) && root in vm.spaces && IsPath(path) && i4 == path[0] && i3 == path[1] && !InGiant(vm.mem, root, path)
    modifies vm`mem, vm`pool, vm`own, vm`log
    ensures Ready(vm)
    ensures if pd == 0 then Walk(FORMAT, old(vm.mem), root, path) == Fault && Missing(FORMAT, old(vm.mem), root, path) > |old(vm.pool)| + 1
            else Built(FORMAT, vm.spaces, old(vm.mem), old(vm.own), |old(vm.pool)|, vm.mem, vm.own, |vm.pool|, root, path, 2, pd)
    ensures SameWalks(FORMAT, vm.spaces, old(vm.mem), vm.mem)
  {
    Start(vm.mem, vm.own, vm.spaces, root, path, |vm.pool|);
    var pdpt := NextTable(vm, root, path, 0, root, i4);
    LookedAdvances(FORMAT, vm.spaces, old(vm.mem), old(vm.own), |old(vm.pool)|, old(vm.mem), old(vm.own), |old(vm.pool)|,
                   vm.mem, vm.own, |vm.pool|, root, path, 0, root, pdpt);
    if pdpt == 0 { return 0; }
    ghost var m, own, left := vm.mem, vm.own, |vm.pool|;
    pd := NextTable(vm, root, path, 1, pdpt, i3);
    LookedAdvances(FORMAT, vm.spaces, old(vm.mem), old(vm.own), |old(vm.pool)|, m, own, left,
                   vm.mem, vm.own, |vm.pool|, root, path, 1, pdpt, pd);
    SameWalksTrans(FORMAT, vm.spaces, old(vm.mem), m, vm.mem);
  }

  /** The last-level table on `path`, made if need be; under a large page, the frame that it maps. */
  method LastTable(vm: Tables, root: Word, i4: Word, i3: Word, i2: Word, ghost path: Path<Word>) returns (pt: Word)
    requires Ready(vm) && root in vm.spaces && IsPath(path) && i4 == path[0] && i3 == path[1] && i2 == path[2] && !InGiant(vm.mem, root, path)
    modifies vm`mem, vm`pool, vm`own, vm`log
    ensures Ready(vm) && SameWalks(FORMAT, vm.spaces, old(vm.mem), vm.mem)
    ensures Covered(old(vm.mem), root, path) ==> pt == CoverFrame(old(vm.mem), root, path) && vm.own == old(vm.own)
    ensures !Covered(old(vm.mem), root, path) ==>
      if pt == 0 then Missing(FORMAT, old(vm.mem), root, path) > |old(vm.pool)|
      else Built(FORMAT, vm.spaces, old(vm.mem), old(vm.own), |old(vm.pool)|, vm.mem, vm.own, |vm.pool|, root, path, 3, pt)
  {
    var pd := Directory(vm, root, i4, i3, path);
    if pd == 0 { return 0; }
    pt := LastStep(vm, root, i2, path, pd, old(vm.mem), old(vm.own), |old(vm.pool)|);
  }

  /** A large page ends the walk in the directory, and its entry is there since before. */
  lemma CoveredEntry(spaces: set<Word>, m0: Memory<Word>, own0: Owners<Word>, free: nat, m: Memory<Word>, own: Owners<Word>, left: nat,
                     root: Word, path: Path<Word>, pd: Word)
    requires IsPath(path) && root in spaces && Built(FORMAT, spaces, m0, own0, free, m, own, left, root, path, 2, pd)
    ensures Covered(m0, root, path) ==>
      Entry(m, pd, path, 2) == Leaf && own == own0 && CoverFrame(m0, root, path) == Read(FORMAT, m, Slot(pd, path[2])) & ADDR
  {
    WalkFrom(m, own, root, path, 2, pd);
  }

  /** The last step, from the directory that was built on the way from memory `m0`. */
  method LastStep(vm: Tables, ghost root: Word, i2: Word, ghost path: Path<Word>, pd: Word, ghost m0: Memory<Word>, ghost own0: Owners<Word>, ghost free: nat)
    returns (pt: Word)
    requires Ready(vm) && root in vm.spaces && IsPath(path) && i2 == path[2]
    requires Built(FORMAT, vm.spaces, m0, own0, free, vm.mem, vm.own, |vm.pool|, root, path, 2, pd)
    modifies vm`mem, vm`pool, vm`own, vm`log
    ensures Ready(vm) && SameWalks(FORMAT, vm.spaces, m0, vm.mem)
    ensures Covered(m0, root, path) ==> pt == CoverFrame(m0, root, path) && vm.own == own0
    ensures !Covered(m0, root, path) ==>
      if pt == 0 then Missing(FORMAT, m0, root, path) > free
      else Built(FORMAT, vm.spaces, m0, own0, free, vm.mem, vm.own, |vm.pool|, root, path, 3, pt)
  {
    ghost var m, own, left := vm.mem, vm.own, |vm.pool|;
    pt := NextTable(vm, root, path, 2, pd, i2);
    LastLooked(vm.spaces, m0, own0, free, m, own, left, vm.mem, vm.own, |vm.pool|, root, path, pd, pt);
  }

  lemma LastLooked(spaces: set<Word>, m0: Memory<Word>, own0: Owners<Word>, free: nat, m: Memory<Word>, own: Owners<Word>, left: nat,
                   n: Memory<Word>, later: Owners<Word>, leaves: nat, root: Word, path: Path<Word>, pd: Word, pt: Word)
    requires ZeroFits(FORMAT) && WellFormed(FORMAT, m, own, spaces) && root in spaces && IsPath(path) && SameWalks(FORMAT, spaces, m, n)
    requires Built(FORMAT, spaces, m0, own0, free, m, own, left, root, path, 2, pd)
    requires Looked(FORMAT, m, own, left, n, later, leaves, root, path, 2, pd, pt)
    requires Entry(m, pd, path, 2).Leaf? ==> pt == Read(FORMAT, m, Slot(pd, path[2])) & ADDR
    ensures SameWalks(FORMAT, spaces, m0, n)
    ensures Covered(m0, root, path) ==> pt == CoverFrame(m0, root, path) && later == own0
    ensures !Covered(m0, root, path) ==>
      if pt == 0 then Missing(FORMAT, m0, root, path) > free
      else Built(FORMAT, spaces, m0, own0, free, n, later, leaves, root, path, 3, pt)
  {
    CoveredEntry(spaces, m0, own0, free, m, own, left, root, path, pd);
    SameWalksTrans(FORMAT, spaces, m0, m, n);
    if !Covered(m0, root, path) {
      LookedAdvances(FORMAT, spaces, m0, own0, free, m, own, left, n, later, leaves, root, path, 2, pd, pt);
    }
  }

  // ---- The interface ------------------------------------------------------

  predicate PageAligned(x: Word) {
    x & PAGE_OFFSET == 0
  }

  predicate LargeAligned(x: Word) {
    x & LARGE_OFFSET == 0
  }

  /** What may be mapped where: anything at user addresses, and kernel-only identity mappings. */
  predicate MayMap(virt: Word, phys: Word, flags: Word, size: Word) {
    UserRange(virt, size) || (virt == phys && flags & USER == 0)
  }

  /** Identity mappings are made in the shared range, which lies below the user range, and not inside a large page. */
  ghost predicate Mappable(mem: Memory<Word>, own: Owners<Word>, root: Word, virt: Word) {
    if UserRange(virt, 1) then !Owned(own, CoverFrame(mem, root, PathOf(virt)))
    else virt < USER_BEGIN && !Covered(mem, root, PathOf(virt))
  }

  /** The frame that a large page over `path` maps, or 0. */
  ghost function CoverFrame(mem: Memory<Word>, root: Word, path: Path<Word>): Word
    requires |path| == 4
  {
    if Covered(mem, root, path) then Walk(FORMAT, mem, root, path).word & ADDR else 0
  }

  function PageWord(phys: Word, flags: Word): Word {
    (phys & !PAGE_OFFSET) | flags
  }

  function LargeWord(phys: Word, flags: Word): Word {
    (phys & !LARGE_OFFSET) | flags | LARGE
  }

  /**
   * Maps one page. A large page over `virt` is not split: the entry is then written into the
   * frame that the large page maps, and no translation changes.
   */
  method Map(vm: Tables, root: Word, virt: Word, phys: Word, flags: Word)
    requires Ready(vm) && root in vm.spaces
    requires MayMap(virt, phys, flags, 0x1000) ==> Mappable(vm.mem, vm.own, root, virt)
    modifies vm
    ensures Ready(vm) && vm.spaces == old(vm.spaces) && Interrupted(vm, old(vm.mem), root)
    ensures
      if MayMap(virt, phys, flags, 0x1000) && PageAligned(virt) && PageAligned(phys)
         && Missing(FORMAT, old(vm.mem), root, PathOf(virt)) <= |old(vm.pool)| && !Covered(old(vm.mem), root, PathOf(virt))
      then PageUpdated(vm.spaces, old(vm.mem), vm.mem, root, PathOf(virt), PagePte(PageWord(phys, flags)))
        && !Covered(vm.mem, root, PathOf(virt))
      else SameViews(vm.spaces, old(vm.mem), vm.mem)
    ensures vm.arena == old(vm.arena) && LargeFrom(vm.spaces, old(vm.mem), vm.mem, {})
  {
    if !MayMap(virt, phys, flags, 0x1000) || !PageAligned(virt) || !PageAligned(phys) { return; }
    MapLocked(vm, root, virt, PageWord(phys, flags));
  }

  method MapLocked(vm: Tables, root: Word, virt: Word, w: Word)
    requires Ready(vm) && root in vm.spaces && Mappable(vm.mem, vm.own, root, virt)
    modifies vm
    ensures Ready(vm) && vm.spaces == old(vm.spaces) && Interrupted(vm, old(vm.mem), root)
    ensures
      if Missing(FORMAT, old(vm.mem), root, PathOf(virt)) <= |old(vm.pool)| && !Covered(old(vm.mem), root, PathOf(virt))
      then PageUpdated(vm.spaces, old(vm.mem), vm.mem, root, PathOf(virt), PagePte(w)) && !Covered(vm.mem, root, PathOf(virt))
      else SameViews(vm.spaces, old(vm.mem), vm.mem)
    ensures vm.arena == old(vm.arena) && LargeFrom(vm.spaces, old(vm.mem), vm.mem, {})
  {
    vm.Lock(root);
    MapWord(vm, root, virt, w);
    SectionInterrupts(vm, old(vm.mem), root);
  }

  method MapWord(vm: Tables, root: Word, virt: Word, w: Word)
    requires Ready(vm) && root in vm.spaces && vm.holder == root && Mappable(vm.mem, vm.own, root, virt)
    modifies vm`mem, vm`pool, vm`own, vm`log
    ensures Ready(vm)
    ensures
      if Missing(FORMAT, old(vm.mem), root, PathOf(virt)) <= |old(vm.pool)| && !Covered(old(vm.mem), root, PathOf(virt))
      then PageUpdated(vm.spaces, old(vm.mem), vm.mem, root, PathOf(virt), PagePte(w)) && !Covered(vm.mem, root, PathOf(virt))
      else SameViews(vm.spaces, old(vm.mem), vm.mem)
    ensures LargeFrom(vm.spaces, old(vm.mem), vm.mem, {})
  {
    NotGiant(vm.mem, vm.own, root, virt);
    PathInRange(virt);
    var pt := LastTable(vm, root, Pml4Index(virt), PdptIndex(virt), PdIndex(virt), PathOf(virt));
    SameWalksSameViews(vm.spaces, old(vm.mem), vm.mem);
    LargeFromSame(vm.spaces, old(vm.mem), vm.mem);
    if pt != 0 {
      ghost var before := vm.mem;
      SetPage(vm, root, virt, pt, w);
      LargeFromTrans(vm.spaces, old(vm.mem), before, vm.mem, {});
    }
  }

  lemma UserPage(virt: Word)
    requires UserRange(virt, 0x1000)
    ensures UserRange(virt, 1)
  {
  }

  lemma NotGiant(mem: Memory<Word>, own: Owners<Word>, root: Word, virt: Word)
    requires Unshared(FORMAT, mem, own) && IsRoot(own, root) && Mappable(mem, own, root, virt)
    ensures !InGiant(mem, root, PathOf(virt))
  {
    if UserRange(virt, 1) {
      UserNotGiant(mem, own, root, virt);
    }
  }

  /** Maps 2 MiB at once, unless a table of 4 KiB pages is in place. */
  method Map2mb(vm: Tables, root: Word, virt: Word, phys: Word, flags: Word)
    requires Ready(vm) && root in vm.spaces
    requires MayMap(virt, phys, flags, 0x20_0000) ==> LargeMappable(vm.mem, root, virt)
    modifies vm
    ensures Ready(vm) && vm.spaces == old(vm.spaces) && Interrupted(vm, old(vm.mem), root)
    ensures
      if MayMap(virt, phys, flags, 0x20_0000) && LargeAligned(virt) && LargeAligned(phys) && RoomForLarge(old(vm.mem), old(vm.pool), root, PathOf(virt))
      then LargeUpdated(vm.spaces, old(vm.mem), vm.mem, root, PathOf(virt), LargeWord(phys, flags))
      else SameViews(vm.spaces, old(vm.mem), vm.mem)
    ensures vm.arena == old(vm.arena) && LargeFrom(vm.spaces, old(vm.mem), vm.mem, {LargeWord(phys, flags)})
  {
    if !MayMap(virt, phys, flags, 0x20_0000) || !LargeAligned(virt) || !LargeAligned(phys) { return; }
    LargeWordIsLarge(phys, flags);
    vm.Lock(root);
    MapLargeWord(vm, root, virt, LargeWord(phys, flags));
    SectionInterrupts(vm, old(vm.mem), root);
  }

  lemma LargeWordIsLarge(phys: Word, flags: Word)
    ensures IsLargeEntry(LargeWord(phys, flags))
  {
  }

  /** Large identity mappings, too, are made in the shared range, and not inside a 1 GiB page. */
  ghost predicate LargeMappable(mem: Memory<Word>, root: Word, virt: Word) {
    UserRange(virt, 1) || (virt < USER_BEGIN && !InGiant(mem, root, PathOf(virt)))
  }

  /** A large page fits: one is there already, or no table is in its place and the levels above exist or can be made. */
  ghost predicate RoomForLarge(mem: Memory<Word>, pool: seq<Word>, root: Word, path: Path<Word>)
    requires |path| == 4
  {
    Covered(mem, root, path) || 0 < Missing(FORMAT, mem, root, path) <= |pool| + 1
  }

  method MapLargeWord(vm: Tables, root: Word, virt: Word, w: Word)
    requires Ready(vm) && root in vm.spaces && vm.holder == root && LargeMappable(vm.mem, root, virt) && IsLargeEntry(w)
    modifies vm`mem, vm`pool, vm`own, vm`log
    ensures Ready(vm)
    ensures if RoomForLarge(old(vm.mem), old(vm.pool), root, PathOf(virt)) then LargeUpdated(vm.spaces, old(vm.mem), vm.mem, root, PathOf(virt), w)
            else SameViews(vm.spaces, old(vm.mem), vm.mem)
    ensures LargeFrom(vm.spaces, old(vm.mem), vm.mem, {w})
  {
    PathInRange(virt);
    if UserRange(virt, 1) { UserNotGiant(vm.mem, vm.own, root, virt); }
    var pd := Directory(vm, root, Pml4Index(virt), PdptIndex(virt), PathOf(virt));
    SameWalksSameViews(vm.spaces, old(vm.mem), vm.mem);
    LargeFromSame(vm.spaces, old(vm.mem), vm.mem);
    if pd == 0 { return; }
    RoomAtDirectory(vm.spaces, old(vm.mem), old(vm.own), old(vm.pool), vm.mem, vm.own, |vm.pool|, root, PathOf(virt), pd);
    var entry := Read(FORMAT, vm.mem, Slot(pd, PdIndex(virt)));
    if entry & PRESENT != 0 && entry & LARGE == 0 { return; }
    ghost var before := vm.mem;
    SetLarge(vm, root, virt, pd, w);
    LargeUpdatedTrans(vm.spaces, old(vm.mem), before, vm.mem, root, PathOf(virt), w);
    LargeFromTrans(vm.spaces, old(vm.mem), before, vm.mem, if w == 0 then {} else {w});
  }

  lemma LargeUpdatedTrans(spaces: set<Word>, l: Memory<Word>, m: Memory<Word>, n: Memory<Word>, root: Word, path: Path<Word>, w: Word)
    requires SameViews(spaces, l, m) && LargeUpdated(spaces, m, n, root, path, w)
    ensures LargeUpdated(spaces, l, n, root, path, w)
  {
  }

  lemma RoomAtDirectory(spaces: set<Word>, m0: Memory<Word>, own0: Owners<Word>, pool0: seq<Word>, m: Memory<Word>, own: Owners<Word>, left: nat,
                        root: Word, path: Path<Word>, pd: Word)
    requires root in spaces && |path| == 4 && !InGiant(m0, root, path)
    requires Built(FORMAT, spaces, m0, own0, |pool0|, m, own, left, root, path, 2, pd)
    ensures RoomForLarge(m0, pool0, root, path) <==> IsLargeEntry(Read(FORMAT, m, Slot(pd, path[2])))
  {
    var w := Read(FORMAT, m, Slot(pd, path[2]));
    assert Walk(FORMAT, m, root, path) == Walk(FORMAT, m0, root, path) by { assert IsAddress(FORMAT, path); }
    WalkFrom(m, own, root, path, 2, pd);
    MissingStep(m, pd, path, 2);
    if w & PRESENT == 0 {
      KindHole(2, w);
    } else {
      KindThere(2, w);
      BlankIsEmpty(m, pd, path[2]);
    }
  }

  lemma MissingStep(mem: Memory<Word>, t: Word, path: Path<Word>, k: nat)
    requires |path| == 4 && k < 3
    ensures Missing(FORMAT, mem, t, path[k..]) ==
      match Entry(mem, t, path, k) case Hole => 3 - k case Leaf => 0 case Table(next) => Missing(FORMAT, mem, next, path[k + 1..])
  {
    assert path[k..][1..] == path[k + 1..];
  }

  lemma BlankIsEmpty(mem: Memory<Word>, t: Word, i: Word)
    requires Read(FORMAT, mem, Slot(t, i)) & PRESENT != 0
    ensures !Blank(FORMAT, mem, t)
  {
  }

  /** Unmaps one page, or the whole 2 MiB page that covers it. */
  method Unmap(vm: Tables, root: Word, virt: Word)
    requires Ready(vm) && root in vm.spaces
    modifies vm
    ensures Ready(vm) && vm.spaces == old(vm.spaces) && vm.pool == old(vm.pool) && Interrupted(vm, old(vm.mem), root)
    ensures
      if !UserRange(virt, 0x1000) || !PageAligned(virt) then SameViews(vm.spaces, old(vm.mem), vm.mem)
      else if Covered(old(vm.mem), root, PathOf(virt)) then LargeUpdated(vm.spaces, old(vm.mem), vm.mem, root, PathOf(virt), 0)
      else PageUpdated(vm.spaces, old(vm.mem), vm.mem, root, PathOf(virt), None)
    ensures vm.arena == old(vm.arena) && LargeFrom(vm.spaces, old(vm.mem), vm.mem, {})
  {
    if !UserRange(virt, 0x1000) || !PageAligned(virt) { return; }
    vm.Lock(root);
    var pd := FindUserDirectory(vm, root, virt);
    if pd == 0 { NotMapped(vm.mem, vm.spaces, root, PathOf(virt)); return; }
    UnmapBelow(vm, root, virt, pd);
    SectionInterrupts(vm, old(vm.mem), root);
  }

  lemma NotMapped(m: Memory<Word>, spaces: set<Word>, root: Word, path: Path<Word>)
    requires |path| == 4 && Walk(FORMAT, m, root, path) == Fault && !FORMAT.shared(path[0])
    ensures PageUpdated(spaces, m, m, root, path, None)
  {
  }

  method FindUserDirectory(vm: Tables, root: Word, virt: Word) returns (pd: Word)
    requires Ready(vm) && root in vm.spaces && UserRange(virt, 0x1000)
    ensures UserRange(virt, 1) && !FORMAT.shared(PathOf(virt)[0])
    ensures if pd == 0 then Walk(FORMAT, vm.mem, root, PathOf(virt)) == Fault
            else Reaches(FORMAT, vm.mem, vm.own, root, PathOf(virt), 2, pd)
  {
    UserPage(virt);
    UserIsPrivate(virt);
    UserNotGiant(vm.mem, vm.own, root, virt);
    PathInRange(virt);
    pd := FindDirectory(vm, root, Pml4Index(virt), PdptIndex(virt), PathOf(virt));
  }

  method UnmapBelow(vm: Tables, root: Word, virt: Word, pd: Word)
    requires Ready(vm) && root in vm.spaces && vm.holder == root && UserRange(virt, 1) && Reaches(FORMAT, vm.mem, vm.own, root, PathOf(virt), 2, pd)
    modifies vm`mem, vm`log
    ensures Ready(vm)
    ensures if Covered(old(vm.mem), root, PathOf(virt)) then LargeUpdated(vm.spaces, old(vm.mem), vm.mem, root, PathOf(virt), 0)
            else PageUpdated(vm.spaces, old(vm.mem), vm.mem, root, PathOf(virt), None)
    ensures LargeFrom(vm.spaces, old(vm.mem), vm.mem, {})
  {
    PathInRange(virt);
    WalkFrom(vm.mem, vm.own, root, PathOf(virt), 2, pd);
    if Read(FORMAT, vm.mem, Slot(pd, PdIndex(virt))) & LARGE != 0 {
      SetLarge(vm, root, virt, pd, 0);
      if !Covered(old(vm.mem), root, PathOf(virt)) {
        NothingThere(old(vm.mem), vm.mem, vm.own, vm.spaces, root, virt, pd);
      }
      return;
    }
    var pt := FindTable(vm, root, PathOf(virt), 2, pd, PdIndex(virt));
    if pt == 0 { return; }
    SetPage(vm, root, virt, pt, 0);
  }

  /** Clearing the size bit of an entry that was not present changes nothing. */
  lemma NothingThere(m: Memory<Word>, n: Memory<Word>, own: Owners<Word>, spaces: set<Word>, root: Word, virt: Word, pd: Word)
    requires WellFormed(FORMAT, m, own, spaces) && UserRange(virt, 1) && Reaches(FORMAT, m, own, root, PathOf(virt), 2, pd)
    requires LargeUpdated(spaces, m, n, root, PathOf(virt), 0) && Entry(m, pd, PathOf(virt), 2) == Hole
    ensures PageUpdated(spaces, m, n, root, PathOf(virt), None)
  {
    var path := PathOf(virt);
    UserIsPrivate(virt);
    forall r, p | r in spaces && IsPath(p) && Sees(FORMAT, root, path, r) && SameLarge(p, path)
      ensures View(m, r, p) == None
    {
      assert p[..2] == path[..2];
      DescendPrefix(FORMAT, m, root, path, p, 2);
      WalkDescend(FORMAT, m, root, p, 2);
    }
  }

  function Protected(w: Word, flags: Word): Word {
    (w & !PERMISSIONS) | (flags & PERMISSIONS)
  }

  method Protect(vm: Tables, root: Word, virt: Word, flags: Word) returns (done: bool)
    requires Ready(vm) && root in vm.spaces
    modifies vm
    ensures Ready(vm) && vm.spaces == old(vm.spaces) && vm.pool == old(vm.pool) && Interrupted(vm, old(vm.mem), root)
    ensures done <==> UserRange(virt, 0x1000) && PageAligned(virt) && OnPage(old(vm.mem), root, PathOf(virt))
    ensures if done then PageUpdated(vm.spaces, old(vm.mem), vm.mem, root, PathOf(virt), PagePte(Protected(Walk(FORMAT, old(vm.mem), root, PathOf(virt)).word, flags)))
            else SameViews(vm.spaces, old(vm.mem), vm.mem)
    ensures vm.arena == old(vm.arena) && LargeFrom(vm.spaces, old(vm.mem), vm.mem, {})
  {
    if !UserRange(virt, 0x1000) || !PageAligned(virt) { return false; }
    vm.Lock(root);
    var pd := FindUserDirectory(vm, root, virt);
    if pd == 0 { return false; }
    done := ProtectBelow(vm, root, virt, pd, flags);
    SectionInterrupts(vm, old(vm.mem), root);
  }

  /** A 4 KiB page is mapped at `path`. */
  ghost predicate OnPage(mem: Memory<Word>, root: Word, path: Path<Word>)
    requires |path| == 4
  {
    var o := Walk(FORMAT, mem, root, path);
    o.Hit? && o.rest == 1
  }

  method ProtectBelow(vm: Tables, root: Word, virt: Word, pd: Word, flags: Word) returns (done: bool)
    requires Ready(vm) && root in vm.spaces && vm.holder == root && UserRange(virt, 1) && Reaches(FORMAT, vm.mem, vm.own, root, PathOf(virt), 2, pd)
    modifies vm`mem, vm`log
    ensures Ready(vm)
    ensures done <==> OnPage(old(vm.mem), root, PathOf(virt))
    ensures if done then PageUpdated(vm.spaces, old(vm.mem), vm.mem, root, PathOf(virt), PagePte(Protected(Walk(FORMAT, old(vm.mem), root, PathOf(virt)).word, flags)))
            else SameViews(vm.spaces, old(vm.mem), vm.mem)
    ensures LargeFrom(vm.spaces, old(vm.mem), vm.mem, {})
  {
    PathInRange(virt);
    WalkFrom(vm.mem, vm.own, root, PathOf(virt), 2, pd);
    var entry := Read(FORMAT, vm.mem, Slot(pd, PdIndex(virt)));
    if entry & LARGE != 0 {
      LargeOrHole(entry);
      return false;
    }
    SmallOrHole(entry);
    var pt := FindTable(vm, root, PathOf(virt), 2, pd, PdIndex(virt));
    if pt == 0 { return false; }
    WalkFrom(vm.mem, vm.own, root, PathOf(virt), 3, pt);
    var w := Read(FORMAT, vm.mem, Slot(pt, PtIndex(virt)));
    LastKind(w);
    if w & PRESENT == 0 { return false; }
    SetPage(vm, root, virt, pt, Protected(w, flags));
    done := true;
  }

  lemma LargeOrHole(w: Word)
    requires w & LARGE != 0
    ensures !FORMAT.kind(2, w).Table?
  {
  }

  lemma SmallOrHole(w: Word)
    requires w & LARGE == 0
    ensures FORMAT.kind(2, w) != Leaf
  {
  }

  lemma LastKind(w: Word)
    ensures FORMAT.kind(1, w) == if w & PRESENT == 0 then Hole else Leaf
  {
  }

  // ---- Lookups ------------------------------------------------------------

  function PhysOf(pte: Option<Pte>, virt: Word): Word {
    match pte case None => 0 case Some(p) => p.frame | (virt & PAGE_OFFSET)
  }

  predicate IsGhost(w: Word) {
    w & LARGE != 0 && w & PRESENT == 0
  }

  /** A page-directory entry with the size bit but not present: left by mapping 2 MiB without `PRESENT`. */
  ghost predicate Ghost(mem: Memory<Word>, root: Word, path: Path<Word>)
    requires |path| == 4
  {
    var pd := Descend(FORMAT, mem, root, path, 2);
    pd.Some? && IsGhost(Read(FORMAT, mem, Slot(pd.value, path[2])))
  }

  /** The physical address behind `virt`, or 0; for a page that only has the size bit, the address it would have. */
  method GetPhys(vm: Tables, root: Word, virt: Word) returns (phys: Word)
    requires Ready(vm) && root in vm.spaces && !InGiant(vm.mem, root, PathOf(virt))
    ensures !Ghost(vm.mem, root, PathOf(virt)) ==> phys == PhysOf(View(vm.mem, root, PathOf(virt)), virt)
    ensures Ghost(vm.mem, root, PathOf(virt)) ==> View(vm.mem, root, PathOf(virt)) == None
    ensures Ghost(vm.mem, root, PathOf(virt)) ==>
      phys == LargeAddress(Read(FORMAT, vm.mem, Slot(Descend(FORMAT, vm.mem, root, PathOf(virt), 2).value, PdIndex(virt))), virt)
  {
    PathInRange(virt);
    var pd := FindDirectory(vm, root, Pml4Index(virt), PdptIndex(virt), PathOf(virt));
    if pd == 0 {
      phys := 0;
    } else {
      phys := GetPhysBelow(vm, root, virt, pd);
    }
  }

  function LargeAddress(w: Word, virt: Word): Word {
    (w & ADDR & !LARGE_OFFSET) | (virt & LARGE_OFFSET)
  }

  method GetPhysBelow(vm: Tables, root: Word, virt: Word, pd: Word) returns (phys: Word)
    requires Ready(vm) && root in vm.spaces && Reaches(FORMAT, vm.mem, vm.own, root, PathOf(virt), 2, pd)
    ensures var w := Read(FORMAT, vm.mem, Slot(pd, PdIndex(virt)));
      if IsGhost(w) then View(vm.mem, root, PathOf(virt)) == None && phys == LargeAddress(w, virt)
      else phys == PhysOf(View(vm.mem, root, PathOf(virt)), virt)
  {
    var entry := Read(FORMAT, vm.mem, Slot(pd, PdIndex(virt)));
    if entry & LARGE == 0 {
      phys := GetPhysPage(vm, root, virt, pd);
    } else {
      LargeThere(vm.mem, vm.own, root, PathOf(virt), pd);
      if entry & PRESENT != 0 { LargePhys(entry, PathOf(virt), virt); }
      phys := LargeAddress(entry, virt);
    }
  }

  method GetPhysPage(vm: Tables, root: Word, virt: Word, pd: Word) returns (phys: Word)
    requires Ready(vm) && root in vm.spaces && Reaches(FORMAT, vm.mem, vm.own, root, PathOf(virt), 2, pd)
    requires Read(FORMAT, vm.mem, Slot(pd, PdIndex(virt))) & LARGE == 0
    ensures phys == PhysOf(View(vm.mem, root, PathOf(virt)), virt)
  {
    PathInRange(virt);
    WalkFrom(vm.mem, vm.own, root, PathOf(virt), 2, pd);
    SmallOrHole(Read(FORMAT, vm.mem, Slot(pd, PdIndex(virt))));
    var pt := FindTable(vm, root, PathOf(virt), 2, pd, PdIndex(virt));
    if pt == 0 { return 0; }
    PageThere(vm.mem, vm.own, root, PathOf(virt), pt);
    var w := Read(FORMAT, vm.mem, Slot(pt, PtIndex(virt)));
    phys := if w & PRESENT == 0 then 0 else (w & ADDR) | (virt & PAGE_OFFSET);
  }

  lemma LargePhys(w: Word, path: Path<Word>, virt: Word)
    requires |path| == 4 && path[3] == PtIndex(virt) && w & PRESENT != 0
    ensures PhysOf(LargePte(w, path), virt) == LargeAddress(w, virt)
  {
    SplitOffset(w, virt);
  }

  lemma LargeThere(mem: Memory<Word>, own: Owners<Word>, root: Word, path: Path<Word>, pd: Word)
    requires |path| == 4 && Reaches(FORMAT, mem, own, root, path, 2, pd) && Read(FORMAT, mem, Slot(pd, path[2])) & LARGE != 0
    ensures View(mem, root, path) == LargePte(Read(FORMAT, mem, Slot(pd, path[2])), path)
  {
    WalkFrom(mem, own, root, path, 2, pd);
    LargeOutcome(Slot(pd, path[2]), Read(FORMAT, mem, Slot(pd, path[2])), path, HomeOf(own, pd));
  }

  lemma PageThere(mem: Memory<Word>, own: Owners<Word>, root: Word, path: Path<Word>, pt: Word)
    requires |path| == 4 && Reaches(FORMAT, mem, own, root, path, 3, pt)
    ensures View(mem, root, path) == PagePte(Read(FORMAT, mem, Slot(pt, path[3])))
  {
    WalkFrom(mem, own, root, path, 3, pt);
    PageOutcome(Slot(pt, path[3]), Read(FORMAT, mem, Slot(pt, path[3])), path, HomeOf(own, pt));
  }

  lemma SplitOffset(w: Word, virt: Word)
    ensures LargeAddress(w, virt) == ((w & ADDR & !LARGE_OFFSET) | (PtIndex(virt) << 12)) | (virt & PAGE_OFFSET)
  {
  }

  /** The bits every entry of a user walk must have. */
  function Required(write: bool): Word {
    if write then 7 else 5
  }

  predicate HasAccess(w: Word, write: bool) {
    w & Required(write) == Required(write)
  }

  predicate Grants(pte: Option<Pte>, write: bool) {
    pte.Some? && HasAccess(pte.value.attributes, write)
  }

  /** What the user walk should return for a page that is mapped as `pte`. */
  function UserPhys(pte: Option<Pte>, virt: Word, write: bool): Word {
    if Grants(pte, write) then PhysOf(pte, virt) else 0
  }

  function OffsetMask(level: nat): Word {
    if level <= 1 then GIANT_OFFSET else if level == 2 then LARGE_OFFSET else PAGE_OFFSET
  }

  /** The physical address behind `virt` if user code may use it so, else 0. */
  method GetUserPhys(vm: Tables, root: Word, virt: Word, write: bool) returns (phys: Word)
    requires Ready(vm) && root in vm.spaces
    ensures phys == if UserRange(virt, 1) then UserPhys(View(vm.mem, root, PathOf(virt)), virt, write) else 0
  {
    if !UserRange(virt, 1) { return 0; }
    UserIsPrivate(virt);
    phys := UserWalk(vm.mem, vm.own, root, virt, PathOf(virt), write);
  }

  /** A user walk of `virt`, whose indices are `path`, stands at `table`. */
  ghost predicate Walking(mem: Memory<Word>, own: Owners<Word>, root: Word, path: Path<Word>, virt: Word, level: nat, table: Word) {
    && Unshared(FORMAT, mem, own) && level < 4 == |path| && Reaches(FORMAT, mem, own, root, path, level, table)
    && !FORMAT.shared(path[0]) && path[3] == PtIndex(virt)
  }

  method UserWalk(mem: Memory<Word>, ghost own: Owners<Word>, root: Word, virt: Word, path: Path<Word>, write: bool) returns (phys: Word)
    requires Unshared(FORMAT, mem, own) && IsRoot(own, root) && |path| == 4 && !FORMAT.shared(path[0]) && path[3] == PtIndex(virt)
    ensures phys == UserPhys(View(mem, root, path), virt, write)
  {
    var table, level := root, 0;        // the source counts shift = 39 - 9 * level
    RootReaches(mem, own, root, path);
    while true
      invariant level < 4 && Walking(mem, own, root, path, virt, level, table)
      decreases 4 - level
    {
      var entry := Read(FORMAT, mem, Slot(table, path[level]));
      if !HasAccess(entry, write) {
        UserStops(mem, own, root, path, virt, level, table, write);
        return 0;
      }
      if level == 3 || (level != 0 && entry & LARGE != 0) {
        UserEnds(mem, own, root, path, virt, level, table, write);
        return UserAddress(entry, virt, OffsetMask(level));
      }
      UserGoesOn(mem, own, root, path, virt, level, table, write);
      table := entry & ADDR;
      level := level + 1;
    }
  }

  /** In a private table, an entry that lacks a required bit is a hole or the end of the walk. */
  lemma LacksMeansEnd(h: Home<Word>, i: Word, w: Word, write: bool)
    requires FORMAT.ok(h, i, w) && h.root.Some? && (h.prefix == [] ==> i != 0) && |h.prefix| < 4 && !HasAccess(w, write)
    ensures FORMAT.kind(4 - |h.prefix|, w) == Hole
            || (FORMAT.kind(4 - |h.prefix|, w) == Leaf && (|h.prefix| == 3 || (|h.prefix| == 2 && w & LARGE != 0)))
  {
  }

  lemma LargeGrants(w: Word, path: Path<Word>, write: bool)
    requires |path| == 4
    ensures HasAccess(w, write) ==> Grants(LargePte(w, path), write)
    ensures Grants(LargePte(w, path), write) ==> HasAccess(w, write)
  {
  }

  lemma PageGrants(w: Word, write: bool)
    ensures HasAccess(w, write) ==> Grants(PagePte(w), write)
    ensures Grants(PagePte(w), write) ==> HasAccess(w, write)
  {
  }

  lemma UserStops(mem: Memory<Word>, own: Owners<Word>, root: Word, path: Path<Word>, virt: Word, level: nat, table: Word, write: bool)
    requires Walking(mem, own, root, path, virt, level, table)
    requires !HasAccess(Read(FORMAT, mem, Slot(table, path[level])), write)
    ensures !Grants(View(mem, root, path), write)
  {
    var w := Read(FORMAT, mem, Slot(table, path[level]));
    if level == 3 {
      PageThere(mem, own, root, path, table);
      PageGrants(w, write);
    } else {
      WalkFrom(mem, own, root, path, level, table);
      assert Linked(FORMAT, mem, own, table, path[level]);
      LacksMeansEnd(HomeOf(own, table), path[level], w, write);
      if Entry(mem, table, path, level) == Leaf {
        LargeThere(mem, own, root, path, table);
        LargeGrants(w, path, write);
      }
    }
  }

  lemma EndMeansLeaf(h: Home<Word>, i: Word, w: Word, write: bool)
    requires FORMAT.ok(h, i, w) && h.root.Some? && 0 < |h.prefix| < 4 && HasAccess(w, write)
    requires |h.prefix| == 3 || w & LARGE != 0
    ensures |h.prefix| >= 2 && FORMAT.kind(4 - |h.prefix|, w) == Leaf
  {
  }

  /** The address a user walk ends with, by level. */
  function UserAddress(w: Word, virt: Word, mask: Word): Word {
    (w & ADDR & !mask) | (virt & mask)
  }

  lemma UserEnds(mem: Memory<Word>, own: Owners<Word>, root: Word, path: Path<Word>, virt: Word, level: nat, table: Word, write: bool)
    requires Walking(mem, own, root, path, virt, level, table) && level > 0 && HasAccess(Read(FORMAT, mem, Slot(table, path[level])), write)
    requires level == 3 || Read(FORMAT, mem, Slot(table, path[level])) & LARGE != 0
    ensures UserPhys(View(mem, root, path), virt, write) == UserAddress(Read(FORMAT, mem, Slot(table, path[level])), virt, OffsetMask(level))
  {
    var w := Read(FORMAT, mem, Slot(table, path[level]));
    if level == 3 {
      PageThere(mem, own, root, path, table);
      UserPageEnds(w, virt, write);
    } else {
      assert Linked(FORMAT, mem, own, table, path[level]);
      EndMeansLeaf(HomeOf(own, table), path[level], w, write);
      LargeThere(mem, own, root, path, table);
      UserLargeEnds(w, path, virt, write);
    }
  }

  lemma UserPageEnds(w: Word, virt: Word, write: bool)
    requires HasAccess(w, write)
    ensures UserPhys(PagePte(w), virt, write) == UserAddress(w, virt, PAGE_OFFSET)
  {
    PageGrants(w, write);
    PageAddress(w);
  }

  lemma UserLargeEnds(w: Word, path: Path<Word>, virt: Word, write: bool)
    requires HasAccess(w, write) && |path| == 4 && path[3] == PtIndex(virt)
    ensures UserPhys(LargePte(w, path), virt, write) == UserAddress(w, virt, LARGE_OFFSET)
  {
    LargeGrants(w, path, write);
    UserLargeAddress(w, path, virt, write);
  }

  lemma UserLargeAddress(w: Word, path: Path<Word>, virt: Word, write: bool)
    requires HasAccess(w, write) && |path| == 4 && path[3] == PtIndex(virt)
    ensures PhysOf(LargePte(w, path), virt) == UserAddress(w, virt, LARGE_OFFSET)
  {
    HasPresent(w, write);
    LargePhys(w, path, virt);
  }

  lemma HasPresent(w: Word, write: bool)
    requires HasAccess(w, write)
    ensures w & PRESENT != 0
  {
  }

  lemma PageAddress(w: Word)
    ensures w & ADDR & !PAGE_OFFSET == w & ADDR
  {
  }

  lemma PresentGoesOn(h: Home<Word>, w: Word, write: bool)
    requires |h.prefix| < 3 && HasAccess(w, write) && (|h.prefix| == 0 || w & LARGE == 0)
    ensures FORMAT.kind(4 - |h.prefix|, w) == Table(w & ADDR)
  {
  }

  lemma UserGoesOn(mem: Memory<Word>, own: Owners<Word>, root: Word, path: Path<Word>, virt: Word, level: nat, table: Word, write: bool)
    requires Walking(mem, own, root, path, virt, level, table) && level < 3 && HasAccess(Read(FORMAT, mem, Slot(table, path[level])), write)
    requires level == 0 || Read(FORMAT, mem, Slot(table, path[level])) & LARGE == 0
    ensures Walking(mem, own, root, path, virt, level + 1, Read(FORMAT, mem, Slot(table, path[level])) & ADDR)
  {
    var w := Read(FORMAT, mem, Slot(table, path[level]));
    PresentGoesOn(HomeOf(own, table), w, write);
    ReachNext(FORMAT, mem, own, root, path, level, table, w & ADDR);
  }

  // ---- New address spaces -------------------------------------------------

  /** A root that shares the kernel's identity map and maps nothing else; 0 when memory is exhausted. */
  method CreateAddressSpace(vm: Tables, kernel: Word) returns (copy: Word)
    requires Ready(vm) && kernel in vm.spaces
    modifies vm
    ensures Ready(vm) && SameViews(old(vm.spaces), old(vm.mem), vm.mem)
    ensures copy == 0 <==> old(vm.pool) == []
    ensures copy == 0 ==> vm.spaces == old(vm.spaces)
    ensures copy != 0 ==> copy !in old(vm.spaces) && vm.spaces == old(vm.spaces) + {copy}
    ensures copy != 0 ==> forall p :: IsPath(p) ==> View(vm.mem, copy, p) == if p[0] == 0 then View(old(vm.mem), kernel, p) else None
  {
    copy := vm.AllocTable();
    SameWalksSameViews(vm.spaces, old(vm.mem), vm.mem);
    if copy == 0 { return; }
    ghost var before := vm.mem;
    vm.WriteOutside(Slot(copy, 0), Read(FORMAT, vm.mem, Slot(kernel, 0)));
    SameWalksTrans(FORMAT, vm.spaces, old(vm.mem), before, vm.mem);
    SameWalksSameViews(vm.spaces, old(vm.mem), vm.mem);
    CommonKept(old(vm.mem), vm.mem, vm.spaces);
    ShareFirst(before, vm.mem, vm.own, vm.spaces, kernel, copy);
    vm.Adopt(kernel, copy);
  }

  lemma ShareFirst(m: Memory<Word>, n: Memory<Word>, own: Owners<Word>, spaces: set<Word>, kernel: Word, copy: Word)
    requires WellFormed(FORMAT, m, own, spaces) && Common(n, spaces) && kernel in spaces && !Owned(own, copy) && Blank(FORMAT, m, copy)
    requires n == m[Slot(copy, 0) := Read(FORMAT, m, Slot(kernel, 0))]
    ensures RootCopy(FORMAT, n, kernel, copy) && Common(n, spaces + {copy})
    ensures forall p :: IsPath(p) ==> View(n, copy, p) == if p[0] == 0 then View(n, kernel, p) else None
  {
    ZeroIsHole();
    assert kernel != copy;
    forall i
      ensures RootEntryOk(FORMAT, copy, i, Read(FORMAT, n, Slot(copy, i)))
      ensures i != 0 ==> Read(FORMAT, n, Slot(copy, i)) == 0
    {
    }
    forall p | IsPath(p)
      ensures View(n, copy, p) == if p[0] == 0 then View(n, kernel, p) else None
    {
      TopIsLink(n, kernel, p);
      RootCopyWalk(FORMAT, n, kernel, copy, p);
    }
  }
}
