/** The page-table pages of every address space, and what the holder of the mapping lock does to them. */
module PageTables {
  import opened Options
  import opened Radix
  import opened Tlb
  import Shootdown

  type Word = bv64

  predicate IsPage(t: Word) {
    t != 0 && t & 0x0000_FFFF_FFFF_F000 == t
  }

  /** A table that no index leads to is a root. */
  ghost predicate TopIsRoot(own: Owners<Word>) {
    forall t :: Owned(own, t) && Depth(own, t) == 0 ==> HomeOf(own, t) == Home(Some(t), [])
  }

  /** The tables are linked from one place each, and every address space has its root among them. */
  ghost predicate WellFormed(f: Format<Word>, mem: Memory<Word>, own: Owners<Word>, spaces: set<Word>) {
    && Unshared(f, mem, own)
    && Roots(own, spaces) && TopIsRoot(own)
    && (forall s :: s in mem ==> s.index < 512)
    && (forall t :: Owned(own, t) ==> IsPage(t))
  }

  ghost predicate PoolOk(pool: seq<Word>, own: Owners<Word>) {
    && (forall k :: 0 <= k < |pool| ==> IsPage(pool[k]) && !Owned(own, pool[k]))
    && (forall j, k :: 0 <= j < k < |pool| ==> pool[j] != pool[k])
  }

  /** Tables and free pages are among these pages. */
  ghost predicate Housed(arena: set<Word>, own: Owners<Word>, pool: seq<Word>) {
    && (forall t :: Owned(own, t) ==> t in arena)
    && (forall k :: 0 <= k < |pool| ==> pool[k] in arena)
  }

  ghost predicate ZeroBelow(f: Format<Word>, mem: Memory<Word>, t: Word, i: Word) {
    forall j: Word :: j < i ==> Read(f, mem, Slot(t, j)) == 0
  }

  lemma UpTo(j: Word, i: Word)
    requires i < 512
    ensures j < i + 1 <==> j < i || j == i
  {
  }

  lemma ZeroBelowNext(f: Format<Word>, mem: Memory<Word>, t: Word, i: Word)
    requires ZeroBelow(f, mem, t, i) && i < 512
    ensures ZeroBelow(f, mem[Slot(t, i) := 0], t, i + 1)
  {
    var next := mem[Slot(t, i) := 0];
    forall j: Word | j < i + 1
      ensures Read(f, next, Slot(t, j)) == 0
    {
      UpTo(j, i);
    }
  }

  lemma ZeroIsBlank(f: Format<Word>, mem: Memory<Word>, t: Word)
    requires ZeroBelow(f, mem, t, 512) && f.zero == 0 && forall s :: s in mem ==> s.index < 512
    ensures Blank(f, mem, t)
  {
    forall i
      ensures Read(f, mem, Slot(t, i)) == f.zero
    {
      assert i < 512 || Slot(t, i) !in mem;
    }
  }

  ghost predicate AgreeOffTable(f: Format<Word>, m: Memory<Word>, n: Memory<Word>, t: Word) {
    forall q: Slot<Word> :: q.table != t ==> Read(f, m, q) == Read(f, n, q)
  }

  /** Entries of tables in use other than `s` are as they were. */
  ghost predicate OthersKept(f: Format<Word>, own: Owners<Word>, m: Memory<Word>, n: Memory<Word>, s: Slot<Word>) {
    forall q: Slot<Word> :: Owned(own, q.table) && q != s ==> Read(f, n, q) == Read(f, m, q)
  }

  ghost function Extend(own: Owners<Word>, t: Word, h: Home<Word>): Owners<Word> {
    own[Frame(t) := h]
  }

  lemma RootsExtend(own: Owners<Word>, spaces: set<Word>, t: Word, h: Home<Word>)
    requires Roots(own, spaces) && !Owned(own, t)
    ensures Roots(Extend(own, t, h), spaces)
  {
  }

  /** A new table in an empty slot. */
  lemma LinkFresh(f: Format<Word>, mem: Memory<Word>, own: Owners<Word>, spaces: set<Word>, s: Slot<Word>, w: Word, t: Word)
    requires ZeroFits(f) && WellFormed(f, mem, own, spaces)
    requires Owned(own, s.table) && Depth(own, s.table) + 1 < f.levels && s.index < 512 && AlwaysHole(f, Read(f, mem, s))
    requires !Owned(own, t) && IsPage(t) && Blank(f, mem, t)
    requires f.kind(f.levels - Depth(own, s.table), w) == Table(t) && f.ok(HomeOf(own, s.table), s.index, w)
    ensures WellFormed(f, mem[s := w], Extend(own, t, Child(f, HomeOf(own, s.table), s.index)), spaces)
    ensures SameWalks(f, spaces, mem, mem[s := w])
  {
    LinkTable(f, mem, own, s, w, t);
    RootsExtend(own, spaces, t, Child(f, HomeOf(own, s.table), s.index));
  }

  /** It is then the next table on its path. */
  lemma LinkReaches(f: Format<Word>, mem: Memory<Word>, own: Owners<Word>, spaces: set<Word>, root: Word, path: Path<Word>, k: nat, t: Word, w: Word, next: Word)
    requires ZeroFits(f) && WellFormed(f, mem, own, spaces) && Reaches(f, mem, own, root, path, k, t) && k + 1 < f.levels
    requires path[k] < 512 && AlwaysHole(f, Read(f, mem, Slot(t, path[k])))
    requires !Owned(own, next) && IsPage(next) && Blank(f, mem, next)
    requires f.kind(f.levels - k, w) == Table(next) && f.ok(HomeOf(own, t), path[k], w)
    ensures var later := Extend(own, next, Child(f, HomeOf(own, t), path[k]));
      && WellFormed(f, mem[Slot(t, path[k]) := w], later, spaces) && SameWalks(f, spaces, mem, mem[Slot(t, path[k]) := w])
      && Reaches(f, mem[Slot(t, path[k]) := w], later, root, path, k + 1, next)
    ensures !Live(f, spaces, mem, Slot(t, path[k]))
  {
    var n, later := mem[Slot(t, path[k]) := w], Extend(own, next, Child(f, HomeOf(own, t), path[k]));
    HoleIsQuiet(f, spaces, mem, Slot(t, path[k]));
    LinkFresh(f, mem, own, spaces, Slot(t, path[k]), w, next);
    DescendKept(f, mem, n, own, root, path, k);
    ReachNext(f, n, later, root, path, k, t, next);
  }

  // ---- Building the tables along a path -----------------------------------

  /** Starting from memory `m0` with `free` pages left, the tables along `path` are there as far as `t`. */
  ghost predicate Built(f: Format<Word>, spaces: set<Word>, m0: Memory<Word>, own0: Owners<Word>, free: nat,
                        m: Memory<Word>, own: Owners<Word>, left: nat, root: Word, path: Path<Word>, k: nat, t: Word) {
    && Reaches(f, m, own, root, path, k, t) && SameWalks(f, spaces, m0, m)
    && Missing(f, m, t, path[k..]) + free == Missing(f, m0, root, path) + left
    && (Walk(f, m0, root, path).Hit? ==> m == m0 && own == own0)
    && left <= free && (left < free ==> Blank(f, m, t))
  }

  /** A lookup at `path[k]` in `t` that makes the next table if there is none has found `next`. */
  ghost predicate Looked(f: Format<Word>, m: Memory<Word>, own: Owners<Word>, left: nat, n: Memory<Word>, later: Owners<Word>, leaves: nat,
                         root: Word, path: Path<Word>, k: nat, t: Word, next: Word)
    requires k < f.levels == |path|
  {
    var kind := f.kind(f.levels - k, Read(f, m, Slot(t, path[k])));
    && (kind.Table? ==> next == kind.next)
    && (!kind.Hole? || left == 0 ==> n == m && later == own && leaves == left)
    && (kind.Hole? && left == 0 ==> next == 0)
    && (kind.Hole? && left > 0 ==> next != 0 && leaves == left - 1 && Blank(f, n, next) && Reaches(f, n, later, root, path, k + 1, next))
  }

  /** What such a lookup means for the whole path, unless it ends in a large page at this level. */
  ghost predicate Advanced(f: Format<Word>, spaces: set<Word>, m0: Memory<Word>, own0: Owners<Word>, free: nat,
                           n: Memory<Word>, later: Owners<Word>, leaves: nat, root: Word, path: Path<Word>, k: nat, next: Word) {
    if next == 0 then Walk(f, m0, root, path) == Fault && Missing(f, m0, root, path) + k + 1 == free + f.levels
    else Built(f, spaces, m0, own0, free, n, later, leaves, root, path, k + 1, next)
  }

  lemma LookedAdvances(f: Format<Word>, spaces: set<Word>, m0: Memory<Word>, own0: Owners<Word>, free: nat, m: Memory<Word>, own: Owners<Word>, left: nat,
                       n: Memory<Word>, later: Owners<Word>, leaves: nat, root: Word, path: Path<Word>, k: nat, t: Word, next: Word)
    requires ZeroFits(f) && WellFormed(f, m, own, spaces) && root in spaces && k + 1 < f.levels == |path|
    requires Built(f, spaces, m0, own0, free, m, own, left, root, path, k, t) && SameWalks(f, spaces, m, n)
    requires Looked(f, m, own, left, n, later, leaves, root, path, k, t, next)
    requires Walk(f, m0, root, path).Hit? ==> Walk(f, m0, root, path).rest != f.levels - k
    ensures Advanced(f, spaces, m0, own0, free, n, later, leaves, root, path, k, next)
  {
    var kind := f.kind(f.levels - k, Read(f, m, Slot(t, path[k])));
    assert IsAddress(f, path);
    assert Walk(f, m, root, path) == Walk(f, m0, root, path);
    WalkDescend(f, m, root, path, k);
    SameWalksTrans(f, spaces, m0, m, n);
    assert path[k..][1..] == path[k + 1..];
    match kind
    case Table(_) =>
      ReachNext(f, m, own, root, path, k, t, next);
      assert !Blank(f, m, t);
    case Hole =>
      if left > 0 {
        BlankMissing(f, n, next, path[k + 1..]);
      }
    case Leaf =>
  }

  lemma BlankMissing(f: Format<Word>, mem: Memory<Word>, t: Word, path: Path<Word>)
    requires ZeroFits(f) && Blank(f, mem, t) && path != []
    ensures Missing(f, mem, t, path) == |path| - 1
  {
    assert Read(f, mem, Slot(t, path[0])) == f.zero;
  }

  /** A table more. */
  lemma StillHoused(arena: set<Word>, own: Owners<Word>, pool: seq<Word>, t: Word, h: Home<Word>)
    requires PoolOk(pool, own) && Housed(arena, own, pool) && t in arena && t !in pool
    ensures PoolOk(pool, Extend(own, t, h)) && Housed(arena, Extend(own, t, h), pool)
  {
  }

  class Tables {
    const f: Format<Word>
    var mem: Memory<Word>
    var pool: seq<Word>                // free pages
    ghost var own: Owners<Word>
    ghost var spaces: set<Word>        // roots of the address spaces
    ghost var arena: set<Word>         // pages that are tables or free
    ghost var holder: Word             // root of the CPU that took the mapping lock last
    ghost var start: Memory<Word>      // table memory at that time
    ghost var log: seq<Event<Word>>    // stores and TLB maintenance since then

    /** The kernel root, before anything is mapped. */
    constructor (f: Format<Word>, root: Word, free: seq<Word>)
      requires ZeroFits(f) && f.zero == 0 && f.levels > 0
      requires IsPage(root) && PoolOk(free, map[Frame(root) := Home(Some(root), [])])
      ensures Valid() && this.f == f && spaces == {root} && pool == free && Blank(f, mem, root)
    {
      this.f := f;
      mem, pool, own, spaces, start, log := map[], free, map[Frame(root) := Home(Some(root), [])], {root}, map[], [];
      arena, holder := {root} + (set k | 0 <= k < |free| :: free[k]), root;
    }

    ghost predicate Valid()
      reads this
    {
      && ZeroFits(f) && f.zero == 0 && WellFormed(f, mem, own, spaces) && PoolOk(pool, own) && Housed(arena, own, pool)
      && Session()
    }

    /** What the lock holder has done so far is safe to interleave with the other CPUs. */
    ghost predicate Session()
      reads this
    {
      Disciplined(f, spaces, start, log) && After(start, log) == mem && OwnLog(f, holder, log)
    }

    /** The tables are as `before`, or what changed them since is all in the log of a CPU on `root`. */
    ghost predicate Section(before: Memory<Word>, root: Word)
      reads this
    {
      mem == before || (start == before && holder == root)
    }

    method Lock(root: Word)
      requires Valid()
      modifies this`start, this`log, this`holder
      ensures Valid() && start == mem && holder == root
    {
      start, log, holder := mem, [], root;
    }

    /** A zeroed page, or 0 when memory is exhausted. */
    method AllocTable() returns (t: Word)
      requires Valid()
      modifies this`mem, this`pool, this`log
      ensures Valid() && SameWalks(f, spaces, old(mem), mem)
      ensures t == 0 <==> old(pool) == []
      ensures t == 0 ==> mem == old(mem) && pool == old(pool)
      ensures t != 0 ==> t == old(pool)[0] && pool == old(pool)[1..] && !Owned(own, t) && IsPage(t) && t in arena
      ensures t != 0 ==> Blank(f, mem, t) && AgreeOffTable(f, old(mem), mem, t)
    {
      if pool == [] { return 0; }
      t := pool[0];
      pool := pool[1..];
      ZeroPage(t);
    }

    method ZeroPage(t: Word)
      requires f.zero == 0 && WellFormed(f, mem, own, spaces) && Session() && !Owned(own, t)
      modifies this`mem, this`log
      ensures WellFormed(f, mem, own, spaces) && Session() && SameWalks(f, spaces, old(mem), mem)
      ensures Blank(f, mem, t) && AgreeOffTable(f, old(mem), mem, t)
    {
      var i: Word := 0;
      while i < 512
        invariant i <= 512
        invariant WellFormed(f, mem, own, spaces) && Session() && SameWalks(f, spaces, old(mem), mem)
        invariant ZeroBelow(f, mem, t, i) && AgreeOffTable(f, old(mem), mem, t)
        decreases 512 - i
      {
        ghost var before := mem;
        WriteOutside(Slot(t, i), 0);
        ZeroBelowNext(f, before, t, i);
        SameWalksTrans(f, spaces, old(mem), before, mem);
        i := i + 1;
      }
      ZeroIsBlank(f, mem, t);
    }

    /** A store into a page that is not linked anywhere. */
    method WriteOutside(s: Slot<Word>, w: Word)
      requires WellFormed(f, mem, own, spaces) && Session() && !Owned(own, s.table) && s.index < 512
      modifies this`mem, this`log
      ensures mem == old(mem)[s := w]
      ensures WellFormed(f, mem, own, spaces) && Session() && SameWalks(f, spaces, old(mem), mem)
    {
      StoreOutside(f, spaces, own, mem, s, w);
      LogStore(f, spaces, start, log, s, w);
      mem := mem[s := w];
      log := log + [Store(s, w)];
    }

    /** Makes a root of a page whose shared entries are those of `kernel` and whose other entries are empty. */
    ghost method Adopt(kernel: Word, copy: Word)
      requires Valid() && kernel in spaces && !Owned(own, copy) && IsPage(copy) && copy in arena && copy !in pool && f.levels > 0
      requires RootCopy(f, mem, kernel, copy)
      modifies this`own, this`spaces, this`start, this`log
      ensures Valid() && spaces == old(spaces) + {copy} && copy !in old(spaces)
    {
      RootCopyUnshared(f, mem, own, kernel, copy);
      RootsExtend(own, spaces, copy, Home(Some(copy), []));
      own := Extend(own, copy, Home(Some(copy), []));
      spaces := spaces + {copy};
      start, log := mem, [];
    }
  }

  /** Where hardware broadcasts flushes: the log can be interleaved with all that the other CPUs do. */
  lemma SectionBroadcasts(vm: Tables, before: Memory<Word>, root: Word)
    requires vm.Session() && vm.Section(before, root)
    ensures vm.mem == before || Interleaves(vm.f, vm.spaces, before, vm.log, vm.mem)
  {
    if vm.mem != before {
      SectionInterleaves(vm.f, vm.spaces, before, vm.log);
    }
  }

  /** Where a flush is an interrupt: the shootdown protocol can carry out the log, from every reachable state. */
  lemma SectionInterrupts(vm: Tables, before: Memory<Word>, root: Word)
    requires vm.Session() && vm.Section(before, root) && !vm.f.strict
    ensures vm.mem == before || Shootdown.ShootsDown(vm.f, vm.spaces, root, before, vm.log, vm.mem)
  {
    if vm.mem != before {
      Shootdown.SectionShootsDown(vm.f, vm.spaces, root, before, vm.log);
    }
  }
}
