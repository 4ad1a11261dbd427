/** Discarding an address space, on both architectures. */
module AddressSpaces {
  import opened Options
  import opened Radix
  import opened Tlb
  import opened PageTables
  import opened Teardown
  import Arm = Aarch64
  import Amd = Amd64

  /** The tables that stay when `root` goes. */
  ghost function Without(own: Owners<Word>, root: Word): Owners<Word> {
    map k | k in own && own[k].root != Some(root) :: own[k]
  }

  lemma WithoutOwned(own: Owners<Word>, root: Word, t: Word)
    ensures Owned(Without(own, root), t) <==> Owned(own, t) && HomeOf(own, t).root != Some(root)
    ensures Owned(Without(own, root), t) ==> HomeOf(Without(own, root), t) == HomeOf(own, t)
  {
  }

  lemma WithoutFormed(f: Format<Word>, mem: Memory<Word>, own: Owners<Word>, spaces: set<Word>, root: Word)
    requires WellFormed(f, mem, own, spaces)
    ensures WellFormed(f, mem, Without(own, root), spaces - {root})
  {
    var rest := Without(own, root);
    forall t
      ensures Owned(rest, t) <==> Owned(own, t) && HomeOf(own, t).root != Some(root)
      ensures Owned(rest, t) ==> HomeOf(rest, t) == HomeOf(own, t)
    {
      WithoutOwned(own, root, t);
    }
    forall t, i | Owned(rest, t)
      ensures Linked(f, mem, rest, t, i)
    {
      assert Linked(f, mem, own, t, i);
    }
    forall t | Owned(rest, t)
      ensures ValidHome(f, HomeOf(rest, t))
    {
      assert ValidHome(f, HomeOf(own, t));
    }
    assert TopIsRoot(rest);
  }

  /** What is due when all of `root` goes. */
  ghost predicate DueAtRoot(l: Layout<Word>, mem: Memory<Word>, owns: Word -> bool, root: Word, c: Call<Word>) {
    Due(l, mem, owns, root, [], l.origin, l.f.levels, c)
  }

  /** The frames that will be freed are pages of their own: no table, not free, and mapped in one place only. */
  ghost predicate FramesOk(l: Layout<Word>, mem: Memory<Word>, own: Owners<Word>, pool: seq<Word>, root: Word, owns: Word -> bool) {
    && (forall c: Call<Word> :: c.FreeFrame? && DueAtRoot(l, mem, owns, root, c) ==> IsPage(c.page) && !Owned(own, c.page) && c.page !in pool)
    && (forall c: Call<Word>, d: Call<Word> :: c.FreeFrame? && d.FreeFrame? && DueAtRoot(l, mem, owns, root, c) && DueAtRoot(l, mem, owns, root, d) && c.page == d.page ==> c.at == d.at)
  }

  /** A table that is due hangs below the root where it was found. */
  lemma TableHangs(l: Layout<Word>, mem: Memory<Word>, own: Owners<Word>, root: Word, owns: Word -> bool, page: Word, at: Path<Word>)
    requires Reads(l) && Unshared(l.f, mem, own) && Discardable(l, mem, own, root) && IsRoot(own, root) && l.f.levels > 0
    requires DueAtRoot(l, mem, owns, root, FreeTable(page, at))
    ensures Owned(own, page) && HomeOf(own, page) == Home(Some(root), at)
  {
    assert at[0..] == at && [] + at == at;
    FollowHangs(l, mem, own, root, root, [], l.f.levels, at);
  }

  /** A freed page was in use by this root alone. */
  lemma FreedOne(l: Layout<Word>, mem: Memory<Word>, own: Owners<Word>, pool: seq<Word>, spaces: set<Word>, root: Word, owns: Word -> bool, c: Call<Word>)
    requires WellFormed(l.f, mem, own, spaces) && PoolOk(pool, own) && IsRoot(own, root) && l.f.levels > 0
    requires Reads(l) && Discardable(l, mem, own, root) && FramesOk(l, mem, own, pool, root, owns) && DueAtRoot(l, mem, owns, root, c)
    ensures IsPage(c.page) && !Owned(Without(own, root), c.page) && c.page !in pool
    ensures c.FreeTable? <==> Owned(own, c.page)
    ensures c.FreeTable? ==> HomeOf(own, c.page) == Home(Some(root), c.at)
  {
    WithoutOwned(own, root, c.page);
    if c.FreeTable? { TableHangs(l, mem, own, root, owns, c.page, c.at); }
  }

  lemma FreedOk(l: Layout<Word>, mem: Memory<Word>, own: Owners<Word>, pool: seq<Word>, spaces: set<Word>, root: Word, owns: Word -> bool, calls: seq<Call<Word>>)
    requires WellFormed(l.f, mem, own, spaces) && PoolOk(pool, own) && IsRoot(own, root) && l.f.levels > 0
    requires Reads(l) && Discardable(l, mem, own, root) && FramesOk(l, mem, own, pool, root, owns)
    requires DistinctPlaces(calls) && forall c :: c in calls ==> DueAtRoot(l, mem, owns, root, c)
    ensures PoolOk(pool + Pages(calls), Without(own, root))
  {
    var all, rest := pool + Pages(calls), Without(own, root);
    forall k | 0 <= k < |all|
      ensures IsPage(all[k]) && !Owned(rest, all[k])
    {
      if k < |pool| {
        WithoutOwned(own, root, all[k]);
      } else {
        FreedOne(l, mem, own, pool, spaces, root, owns, calls[k - |pool|]);
      }
    }
    forall j, k | 0 <= j < k < |all|
      ensures all[j] != all[k]
    {
      if k >= |pool| {
        var d := calls[k - |pool|];
        FreedOne(l, mem, own, pool, spaces, root, owns, d);
        if j >= |pool| {
          var c := calls[j - |pool|];
          FreedOne(l, mem, own, pool, spaces, root, owns, c);
          assert c.at != d.at;
        }
      }
    }
  }

  /** These are all the calls that are due, at different places. */
  ghost predicate Complete(l: Layout<Word>, mem: Memory<Word>, owns: Word -> bool, root: Word, calls: seq<Call<Word>>) {
    DistinctPlaces(calls) && forall c :: c in calls <==> DueAtRoot(l, mem, owns, root, c)
  }

  lemma CallsComplete(l: Layout<Word>, mem: Memory<Word>, own: Owners<Word>, owns: Word -> bool, root: Word)
    requires Reads(l) && Unshared(l.f, mem, own) && Discardable(l, mem, own, root) && IsRoot(own, root) && l.f.levels > 0
    ensures Complete(l, mem, owns, root, TableCalls(l, mem, owns, root, [], l.origin, l.f.levels))
  {
    CallsDistinct(l, mem, owns, root, [], l.origin, l.f.levels);
    forall c
      ensures c in TableCalls(l, mem, owns, root, [], l.origin, l.f.levels) <==> DueAtRoot(l, mem, owns, root, c)
    {
      CallsAreDue(l, mem, own, root, owns, root, [], l.origin, l.f.levels, c);
    }
  }

  ghost function Grown(arena: set<Word>, freed: seq<Word>): set<Word> {
    arena + (set k | 0 <= k < |freed| :: freed[k])
  }

  lemma HousedWithout(arena: set<Word>, own: Owners<Word>, pool: seq<Word>, root: Word, freed: seq<Word>)
    requires Housed(arena, own, pool)
    ensures Housed(Grown(arena, freed), Without(own, root), pool + freed)
  {
    forall t | Owned(Without(own, root), t)
      ensures t in arena
    {
      WithoutOwned(own, root, t);
    }
  }

  /** The root can be given up: its tables are plain, and so are the frames it owns. */
  ghost predicate MayGo(l: Layout<Word>, mem: Memory<Word>, own: Owners<Word>, pool: seq<Word>, spaces: set<Word>, root: Word, owns: Word -> bool) {
    root in spaces && Reads(l) && Discardable(l, mem, own, root) && FramesOk(l, mem, own, pool, root, owns)
  }

  lemma AfterDiscard(l: Layout<Word>, mem: Memory<Word>, own: Owners<Word>, pool: seq<Word>, spaces: set<Word>, arena: set<Word>, root: Word, owns: Word -> bool)
    requires WellFormed(l.f, mem, own, spaces) && PoolOk(pool, own) && Housed(arena, own, pool) && l.f.levels > 0
    requires MayGo(l, mem, own, pool, spaces, root, owns)
    ensures var calls, rest := TableCalls(l, mem, owns, root, [], l.origin, l.f.levels), Without(own, root);
      && Complete(l, mem, owns, root, calls) && WellFormed(l.f, mem, rest, spaces - {root})
      && PoolOk(pool + Pages(calls), rest) && Housed(Grown(arena, Pages(calls)), rest, pool + Pages(calls))
  {
    var calls := TableCalls(l, mem, owns, root, [], l.origin, l.f.levels);
    CallsComplete(l, mem, own, owns, root);
    FreedOk(l, mem, own, pool, spaces, root, owns, calls);
    WithoutFormed(l.f, mem, own, spaces, root);
    HousedWithout(arena, own, pool, root, Pages(calls));
  }

  /**
   * Discards `root` unless it is 0 or some CPU runs on it. `owns` is true of every address
   * when the caller gives no area list.
   */
  method Discard(vm: Tables, l: Layout<Word>, root: Word, active: set<Word>, owns: Word -> bool) returns (ghost calls: seq<Call<Word>>)
    requires vm.Valid() && l.f == vm.f && l.f.levels > 0
    requires root != 0 && root !in active ==> MayGo(l, vm.mem, vm.own, vm.pool, vm.spaces, root, owns)
    modifies vm
    ensures vm.Valid() && vm.mem == old(vm.mem)
    ensures root == 0 || root in active ==> vm.pool == old(vm.pool) && vm.own == old(vm.own) && vm.spaces == old(vm.spaces)
    ensures root != 0 && root !in active ==>
      && vm.pool == old(vm.pool) + Pages(calls) && Complete(l, vm.mem, owns, root, calls)
      && vm.own == Without(old(vm.own), root) && vm.spaces == old(vm.spaces) - {root}
  {
    if root == 0 || root in active { return []; }
    AfterDiscard(l, vm.mem, vm.own, vm.pool, vm.spaces, vm.arena, root, owns);
    calls := TableCalls(l, vm.mem, owns, root, [], l.origin, l.f.levels);
    var freed := DiscardTable(l, vm.mem, owns, root, [], l.origin, l.f.levels);
    Release(vm, root, freed);
  }

  /** The pages go back to the allocator. */
  method Release(vm: Tables, root: Word, freed: seq<Word>)
    requires vm.Valid() && WellFormed(vm.f, vm.mem, Without(vm.own, root), vm.spaces - {root})
    requires PoolOk(vm.pool + freed, Without(vm.own, root)) && Housed(Grown(vm.arena, freed), Without(vm.own, root), vm.pool + freed)
    modifies vm
    ensures vm.Valid() && vm.mem == old(vm.mem) && vm.pool == old(vm.pool) + freed
    ensures vm.own == Without(old(vm.own), root) && vm.spaces == old(vm.spaces) - {root}
  {
    vm.pool := vm.pool + freed;
    vm.own, vm.arena := Without(vm.own, root), Grown(vm.arena, freed);
    vm.spaces := vm.spaces - {root};
    vm.start, vm.log := vm.mem, [];
  }

  // ---- The two layouts ----------------------------------------------------

  /** How many entries of a table are visited: all, or the lower half. */
  function End(half: bool): Word {
    if half then 256 else 512
  }

  /** The indices from `i` on. */
  function Indices(i: Word, half: bool): seq<Word>
    decreases 512 - i
  {
    if i >= End(half) then [] else [i] + Indices(i + 1, half)
  }

  lemma {:induction false} IndicesInRange(i: Word, half: bool, x: Word)
    requires x in Indices(i, half)
    ensures i <= x && x < End(half)
    decreases 512 - i
  {
    if i < End(half) && x != i {
      IndicesInRange(i + 1, half, x);
    }
  }

  lemma {:induction false} RangeInIndices(i: Word, half: bool, x: Word)
    requires i < End(half) && i <= x && x < End(half)
    ensures x in Indices(i, half)
    decreases 512 - i
  {
    IndicesStart(i, half);
    if x != i {
      NextIndex(i, half, x);
      RangeInIndices(i + 1, half, x);
    }
  }

  lemma IndicesStart(i: Word, half: bool)
    requires i < End(half)
    ensures Indices(i, half) == [i] + Indices(i + 1, half)
  {
  }

  lemma NextIndex(i: Word, half: bool, x: Word)
    requires i <= x && x < End(half) && x != i
    ensures i + 1 <= x && i + 1 < End(half)
  {
    Successor(i, x, End(half));
  }

  lemma Successor(i: Word, x: Word, end: Word)
    requires i <= x && x < end && x != i && end <= 512
    ensures i + 1 <= x && i + 1 < end
  {
  }

  lemma {:induction false} IndicesDistinct(i: Word, half: bool)
    ensures Distinct(Indices(i, half))
    decreases 512 - i
  {
    if i < End(half) {
      IndicesDistinct(i + 1, half);
      if i in Indices(i + 1, half) {
        IndicesInRange(i + 1, half, i);
      }
      HeadDistinct(i, Indices(i + 1, half));
    }
  }

  lemma HeadDistinct<T(!new)>(x: T, s: seq<T>)
    requires Distinct(s) && x !in s
    ensures Distinct([x] + s)
  {
  }

  /** The address of index `i` in a table at `base` with `depth` levels left. */
  function Place(base: Word, depth: nat, i: Word): Word {
    if depth == 1 then base + (i << 12)
    else if depth == 2 then base + (i << 21)
    else if depth == 3 then base + (i << 30)
    else base + (i << 39)
  }

  const ARM: Layout<Word> := Layout(
    Arm.FORMAT, (w: Word) => w & 1 != 0, (w: Word) => w & Arm.ADDR, (b: Word, d: nat, i: Word) => Place(b, d, i),
    (d: nat) => if d == 3 then Indices(4, false) else Indices(0, false), 0)

  const AMD: Layout<Word> := Layout(
    Amd.FORMAT, (w: Word) => w & 1 != 0, (w: Word) => w & Amd.ADDR, (b: Word, d: nat, i: Word) => Place(b, d, i),
    (d: nat) => if d == 4 then Indices(1, true) else Indices(0, false), 0)

  lemma ArmReads()
    ensures Reads(ARM) && LastIsLast(ARM.f)
  {
  }

  lemma AmdReads()
    ensures Reads(AMD) && LastIsLast(AMD.f)
  {
  }

  /** No private table of `root` holds a 2 MiB block. */
  ghost predicate NoBlocks(f: Format<Word>, mem: Memory<Word>, own: Owners<Word>, root: Word) {
    forall t, i :: Private(own, root, t) && Depth(own, t) + 1 < f.levels ==> f.kind(f.levels - Depth(own, t), Read(f, mem, Slot(t, i))) != Leaf
  }

  /** An entry of a table in use is visited, lies in the shared part, is empty, or does not exist. */
  ghost predicate VisitsAll(l: Layout<Word>, mem: Memory<Word>, root: Word) {
    && (forall d :: Distinct(l.order(d)))
    && (forall i :: i in l.order(l.f.levels) ==> !l.f.shared(i))
    && (forall d, i :: 1 <= d < l.f.levels ==> i in l.order(d) || i >= 512)
    && (forall i :: i in l.order(l.f.levels) || i >= 512 || l.f.shared(i) || l.f.kind(l.f.levels, Read(l.f, mem, Slot(root, i))) == Hole)
  }

  lemma DiscardableIf(l: Layout<Word>, mem: Memory<Word>, own: Owners<Word>, spaces: set<Word>, root: Word)
    requires WellFormed(l.f, mem, own, spaces) && root in spaces && NoBlocks(l.f, mem, own, root) && VisitsAll(l, mem, root)
    requires ZeroFits(l.f) && LastIsLast(l.f)
    ensures Discardable(l, mem, own, root)
  {
    forall t, i | Private(own, root, t)
      ensures EntryPlain(l, mem, own, t, i)
    {
      assert ValidHome(l.f, HomeOf(own, t));
      assert i >= 512 ==> Slot(t, i) !in mem;
      LastWord(l.f, Read(l.f, mem, Slot(t, i)));
    }
  }

  lemma ArmShares(i: Word)
    ensures Arm.FORMAT.shared(i) == (i < 4)
  {
  }

  lemma {:induction false} ArmVisits(mem: Memory<Word>, root: Word)
    ensures VisitsAll(ARM, mem, root)
  {
    IndicesDistinct(4, false);
    IndicesDistinct(0, false);
    forall i: Word
      ensures i in ARM.order(3) ==> !Arm.FORMAT.shared(i)
      ensures i in ARM.order(3) || i >= 512 || Arm.FORMAT.shared(i)
    {
      ArmShares(i);
      if i in Indices(4, false) { IndicesInRange(4, false, i); }
      if i >= 4 && i < 512 { RangeInIndices(4, false, i); }
    }
    forall d: nat, i | 1 <= d < 3
      ensures i in ARM.order(d) || i >= 512
    {
      if i < 512 { RangeInIndices(0, false, i); }
    }
  }

  /** Nothing is mapped above the user range, where no table is visited. */
  ghost predicate UpperHalfEmpty(mem: Memory<Word>, root: Word) {
    forall i :: i >= 256 ==> Amd.FORMAT.kind(4, Read(Amd.FORMAT, mem, Slot(root, i))) == Hole
  }

  lemma {:induction false} AmdVisits(mem: Memory<Word>, root: Word)
    requires UpperHalfEmpty(mem, root)
    ensures VisitsAll(AMD, mem, root)
  {
    IndicesDistinct(1, true);
    IndicesDistinct(0, false);
    forall i
      ensures i in AMD.order(4) ==> !Amd.FORMAT.shared(i)
      ensures i in AMD.order(4) || i >= 256 || Amd.FORMAT.shared(i)
    {
      if i in Indices(1, true) { IndicesInRange(1, true, i); }
      if i >= 1 && i < 256 { RangeInIndices(1, true, i); }
    }
    forall d: nat, i | 1 <= d < 4
      ensures i in AMD.order(d) || i >= 512
    {
      if i < 512 { RangeInIndices(0, false, i); }
    }
  }

  // ---- The addresses handed to `owns` -------------------------------------

  lemma ArmSum(a: Word, b: Word, c: Word)
    requires 4 <= a && a < 512 && b < 512 && c < 512
    ensures var v := Place(Place(Place(0, 3, a), 2, b), 1, c);
      Arm.L1(v) == a && Arm.L2(v) == b && Arm.L3(v) == c && v & 0xFFF == 0 && Arm.UserRange(v, 0x1000)
  {
  }

  lemma AmdSum(a: Word, b: Word, c: Word, d: Word)
    requires 1 <= a && a < 256 && b < 512 && c < 512 && d < 512
    ensures var v := Place(Place(Place(Place(0, 4, a), 3, b), 2, c), 1, d);
      && Amd.Pml4Index(v) == a && Amd.PdptIndex(v) == b && Amd.PdIndex(v) == c && Amd.PtIndex(v) == d
      && v & 0xFFF == 0 && Amd.UserRange(v, 0x1000)
  {
  }

  /** The address computed on the way down is the user address that the walk translates with these indices. */
  lemma ArmAddress(path: Path<Word>)
    requires Arm.IsPath(path) && path[0] >= 4
    ensures var v := AddressFrom(ARM, 0, 3, path);
      Arm.L1(v) == path[0] && Arm.L2(v) == path[1] && Arm.L3(v) == path[2] && v & 0xFFF == 0 && Arm.UserRange(v, 0x1000)
  {
    ThreePlaces(ARM, 0, path);
    ArmSum(path[0], path[1], path[2]);
  }

  lemma AmdAddress(path: Path<Word>)
    requires Amd.IsPath(path) && 1 <= path[0] && path[0] < 256
    ensures var v := AddressFrom(AMD, 0, 4, path);
      && Amd.Pml4Index(v) == path[0] && Amd.PdptIndex(v) == path[1] && Amd.PdIndex(v) == path[2] && Amd.PtIndex(v) == path[3]
      && v & 0xFFF == 0 && Amd.UserRange(v, 0x1000)
  {
    FourPlaces(AMD, 0, path);
    AmdSum(path[0], path[1], path[2], path[3]);
  }

  // ---- Each architecture --------------------------------------------------

  /** A walk that hits has read entries that exist. */
  lemma {:induction false} HitIndices(f: Format<Word>, mem: Memory<Word>, t: Word, path: Path<Word>)
    requires ZeroFits(f) && (forall s :: s in mem ==> s.index < 512) && Walk(f, mem, t, path).Hit?
    ensures forall k :: 0 <= k <= |path| - Walk(f, mem, t, path).rest ==> path[k] < 512
    decreases |path|
  {
    var s := Slot(t, path[0]);
    assert s.index >= 512 ==> s !in mem;
    match f.kind(|path|, Read(f, mem, s))
    case Table(next) => HitIndices(f, mem, next, path[1..]);
    case _ =>
  }

  /** The page at the user address `virt` is mapped to a frame that `owns` claims. */
  ghost predicate ArmOwned(mem: Memory<Word>, root: Word, owns: Word -> bool, page: Word, virt: Word) {
    Arm.UserRange(virt, 0x1000) && virt & 0xFFF == 0 && owns(virt) &&
    var o := Walk(Arm.FORMAT, mem, root, Arm.PathOf(virt));
    o.Hit? && o.rest == 1 && page == o.word & Arm.ADDR
  }

  ghost predicate AmdOwned(mem: Memory<Word>, root: Word, owns: Word -> bool, page: Word, virt: Word) {
    Amd.UserRange(virt, 0x1000) && virt & 0xFFF == 0 && owns(virt) &&
    var o := Walk(Amd.FORMAT, mem, root, Amd.PathOf(virt));
    o.Hit? && o.rest == 1 && page == o.word & Amd.ADDR
  }

  lemma AlignedPage(u: Word, v: Word)
    requires u & 0xFFF == 0 && v & 0xFFF == 0 && u >> 12 == v >> 12
    ensures u == v
  {
  }

  lemma ArmUser(virt: Word)
    requires Arm.UserRange(virt, 0x1000)
    ensures virt < 0x80_0000_0000 && Arm.IsPath(Arm.PathOf(virt)) && Arm.L1(virt) >= 4
  {
  }

  lemma AmdUser(virt: Word)
    requires Amd.UserRange(virt, 0x1000)
    ensures virt < 0x1_0000_0000_0000 && Amd.IsPath(Amd.PathOf(virt)) && 1 <= Amd.Pml4Index(virt) && Amd.Pml4Index(virt) < 256
  {
  }

  /** A user page is where its indices say. */
  lemma ArmAddressBack(virt: Word)
    requires Arm.UserRange(virt, 0x1000) && virt & 0xFFF == 0
    ensures AddressFrom(ARM, 0, 3, Arm.PathOf(virt)) == virt && Arm.PathOf(virt)[0] in ARM.order(3)
  {
    var v := AddressFrom(ARM, 0, 3, Arm.PathOf(virt));
    ArmUser(virt);
    ArmAddress(Arm.PathOf(virt));
    ArmUser(v);
    Arm.SamePage(v, virt);
    AlignedPage(v, virt);
    RangeInIndices(4, false, Arm.L1(virt));
  }

  lemma AmdAddressBack(virt: Word)
    requires Amd.UserRange(virt, 0x1000) && virt & 0xFFF == 0
    ensures AddressFrom(AMD, 0, 4, Amd.PathOf(virt)) == virt && Amd.PathOf(virt)[0] in AMD.order(4)
  {
    var v := AddressFrom(AMD, 0, 4, Amd.PathOf(virt));
    AmdUser(virt);
    AmdAddress(Amd.PathOf(virt));
    AmdUser(v);
    Amd.SamePage(v, virt);
    AlignedPage(v, virt);
    RangeInIndices(1, true, Amd.Pml4Index(virt));
  }

  /** The frames due are those of the owned user pages, at their addresses. */
  lemma ArmHitPath(mem: Memory<Word>, root: Word, at: Path<Word>)
    requires ZeroFits(Arm.FORMAT) && (forall s :: s in mem ==> s.index < 512) && |at| == 3
    requires var o := Walk(Arm.FORMAT, mem, root, at); o.Hit? && o.rest == 1
    ensures Arm.IsPath(at)
  {
    HitIndices(Arm.FORMAT, mem, root, at);
  }

  lemma ArmPathBack(at: Path<Word>)
    requires Arm.IsPath(at) && at[0] >= 4
    ensures var v := AddressFrom(ARM, 0, 3, at); Arm.PathOf(v) == at && v & 0xFFF == 0 && Arm.UserRange(v, 0x1000)
  {
    ArmAddress(at);
  }

  lemma ArmDuePath(mem: Memory<Word>, owns: Word -> bool, root: Word, page: Word, at: Path<Word>, virt: Word)
    requires ZeroFits(Arm.FORMAT) && (forall s :: s in mem ==> s.index < 512) && DueAtRoot(ARM, mem, owns, root, FreeFrame(page, at, virt))
    ensures Arm.IsPath(at) && at[0] in ARM.order(3) && at == Arm.PathOf(virt) && virt & 0xFFF == 0 && Arm.UserRange(virt, 0x1000)
  {
    assert at[0..] == at;
    IndicesInRange(4, false, at[0]);
    ArmHitPath(mem, root, at);
    ArmPathBack(at);
  }

  lemma ArmDueOwned(mem: Memory<Word>, owns: Word -> bool, root: Word, page: Word, at: Path<Word>, virt: Word)
    requires ZeroFits(Arm.FORMAT) && (forall s :: s in mem ==> s.index < 512) && DueAtRoot(ARM, mem, owns, root, FreeFrame(page, at, virt))
    ensures at == Arm.PathOf(virt) && ArmOwned(mem, root, owns, page, virt)
  {
    ArmDuePath(mem, owns, root, page, at, virt);
    assert at[0..] == at;
  }

  lemma ArmOwnedDue(mem: Memory<Word>, owns: Word -> bool, root: Word, page: Word, virt: Word)
    requires ArmOwned(mem, root, owns, page, virt)
    ensures DueAtRoot(ARM, mem, owns, root, FreeFrame(page, Arm.PathOf(virt), virt))
  {
    var at := Arm.PathOf(virt);
    assert at[0..] == at;
    ArmAddressBack(virt);
  }

  lemma ArmDue(mem: Memory<Word>, owns: Word -> bool, root: Word, page: Word, at: Path<Word>, virt: Word)
    requires ZeroFits(Arm.FORMAT) && forall s :: s in mem ==> s.index < 512
    ensures DueAtRoot(ARM, mem, owns, root, FreeFrame(page, at, virt)) <==> at == Arm.PathOf(virt) && ArmOwned(mem, root, owns, page, virt)
  {
    if DueAtRoot(ARM, mem, owns, root, FreeFrame(page, at, virt)) { ArmDueOwned(mem, owns, root, page, at, virt); }
    if ArmOwned(mem, root, owns, page, virt) { ArmOwnedDue(mem, owns, root, page, virt); }
  }

  lemma AmdHitPath(mem: Memory<Word>, root: Word, at: Path<Word>)
    requires ZeroFits(Amd.FORMAT) && (forall s :: s in mem ==> s.index < 512) && |at| == 4
    requires var o := Walk(Amd.FORMAT, mem, root, at); o.Hit? && o.rest == 1
    ensures Amd.IsPath(at)
  {
    HitIndices(Amd.FORMAT, mem, root, at);
  }

  lemma AmdPathBack(at: Path<Word>)
    requires Amd.IsPath(at) && 1 <= at[0] && at[0] < 256
    ensures var v := AddressFrom(AMD, 0, 4, at); Amd.PathOf(v) == at && v & 0xFFF == 0 && Amd.UserRange(v, 0x1000)
  {
    AmdAddress(at);
  }

  lemma AmdDuePath(mem: Memory<Word>, owns: Word -> bool, root: Word, page: Word, at: Path<Word>, virt: Word)
    requires ZeroFits(Amd.FORMAT) && (forall s :: s in mem ==> s.index < 512) && DueAtRoot(AMD, mem, owns, root, FreeFrame(page, at, virt))
    ensures Amd.IsPath(at) && at[0] in AMD.order(4) && at == Amd.PathOf(virt) && virt & 0xFFF == 0 && Amd.UserRange(virt, 0x1000)
  {
    assert at[0..] == at;
    IndicesInRange(1, true, at[0]);
    AmdHitPath(mem, root, at);
    AmdPathBack(at);
  }

  lemma AmdDueOwned(mem: Memory<Word>, owns: Word -> bool, root: Word, page: Word, at: Path<Word>, virt: Word)
    requires ZeroFits(Amd.FORMAT) && (forall s :: s in mem ==> s.index < 512) && DueAtRoot(AMD, mem, owns, root, FreeFrame(page, at, virt))
    ensures at == Amd.PathOf(virt) && AmdOwned(mem, root, owns, page, virt)
  {
    AmdDuePath(mem, owns, root, page, at, virt);
    assert at[0..] == at;
  }

  lemma AmdOwnedDue(mem: Memory<Word>, owns: Word -> bool, root: Word, page: Word, virt: Word)
    requires AmdOwned(mem, root, owns, page, virt)
    ensures DueAtRoot(AMD, mem, owns, root, FreeFrame(page, Amd.PathOf(virt), virt))
  {
    var at := Amd.PathOf(virt);
    assert at[0..] == at;
    AmdAddressBack(virt);
  }

  lemma AmdDue(mem: Memory<Word>, owns: Word -> bool, root: Word, page: Word, at: Path<Word>, virt: Word)
    requires ZeroFits(Amd.FORMAT) && forall s :: s in mem ==> s.index < 512
    ensures DueAtRoot(AMD, mem, owns, root, FreeFrame(page, at, virt)) <==> at == Amd.PathOf(virt) && AmdOwned(mem, root, owns, page, virt)
  {
    if DueAtRoot(AMD, mem, owns, root, FreeFrame(page, at, virt)) { AmdDueOwned(mem, owns, root, page, at, virt); }
    if AmdOwned(mem, root, owns, page, virt) { AmdOwnedDue(mem, owns, root, page, virt); }
  }

  /** The frames that will be freed are pages of their own. */
  ghost predicate ArmFrames(mem: Memory<Word>, own: Owners<Word>, pool: seq<Word>, root: Word, owns: Word -> bool) {
    && (forall page, virt :: ArmOwned(mem, root, owns, page, virt) ==> IsPage(page) && !Owned(own, page) && page !in pool)
    && (forall page, u, v :: ArmOwned(mem, root, owns, page, u) && ArmOwned(mem, root, owns, page, v) ==> u == v)
  }

  lemma ArmFramesOk(mem: Memory<Word>, own: Owners<Word>, pool: seq<Word>, root: Word, owns: Word -> bool)
    requires ZeroFits(Arm.FORMAT) && (forall s :: s in mem ==> s.index < 512) && ArmFrames(mem, own, pool, root, owns)
    ensures FramesOk(ARM, mem, own, pool, root, owns)
  {
    forall c: Call<Word> | c.FreeFrame? && DueAtRoot(ARM, mem, owns, root, c)
      ensures c.at == Arm.PathOf(c.virt) && ArmOwned(mem, root, owns, c.page, c.virt)
    {
      ArmDue(mem, owns, root, c.page, c.at, c.virt);
    }
  }

  /** What is freed: the tables of the private part, where they hang, and the frames of the owned user pages. */
  ghost predicate ArmFreed(mem: Memory<Word>, own: Owners<Word>, owns: Word -> bool, root: Word, calls: seq<Call<Word>>) {
    && DistinctPlaces(calls)
    && (forall page, at, virt :: FreeFrame(page, at, virt) in calls <==> at == Arm.PathOf(virt) && ArmOwned(mem, root, owns, page, virt))
    && (forall page, at :: FreeTable(page, at) in calls ==> Owned(own, page) && HomeOf(own, page) == Home(Some(root), at))
    && (forall page, at :: FreeTable(page, at) in calls <==> ArmTable(mem, root, page, at))
  }

  /** Indices `at` of the private part lead to the table `page`. */
  ghost predicate ArmTable(mem: Memory<Word>, root: Word, page: Word, at: Path<Word>) {
    |at| < 3 && (at != [] ==> !Arm.FORMAT.shared(at[0])) && Follow(Arm.FORMAT, mem, root, 3, at) == Some(page)
  }

  lemma ArmTableDue(mem: Memory<Word>, owns: Word -> bool, root: Word, page: Word, at: Path<Word>)
    requires ZeroFits(Arm.FORMAT) && forall s :: s in mem ==> s.index < 512
    ensures DueAtRoot(ARM, mem, owns, root, FreeTable(page, at)) <==> ArmTable(mem, root, page, at)
  {
    assert at[0..] == at;
    if at != [] {
      assert at[0] >= 512 ==> Slot(root, at[0]) !in mem;
      ArmVisits(mem, root);
    }
  }

  lemma ArmComplete(mem: Memory<Word>, own: Owners<Word>, spaces: set<Word>, root: Word, owns: Word -> bool, calls: seq<Call<Word>>)
    requires ZeroFits(Arm.FORMAT) && WellFormed(Arm.FORMAT, mem, own, spaces) && root in spaces
    requires Discardable(ARM, mem, own, root) && Complete(ARM, mem, owns, root, calls)
    ensures ArmFreed(mem, own, owns, root, calls)
  {
    forall page, at, virt
      ensures FreeFrame(page, at, virt) in calls <==> at == Arm.PathOf(virt) && ArmOwned(mem, root, owns, page, virt)
    {
      ArmDue(mem, owns, root, page, at, virt);
    }
    forall page, at
      ensures FreeTable(page, at) in calls <==> ArmTable(mem, root, page, at)
      ensures FreeTable(page, at) in calls ==> Owned(own, page) && HomeOf(own, page) == Home(Some(root), at)
    {
      ArmTableDue(mem, owns, root, page, at);
      if FreeTable(page, at) in calls {
        ArmReads();
        TableHangs(ARM, mem, own, root, owns, page, at);
      }
    }
  }

  /** Discarding an address space on AArch64. */
  method DiscardArm(vm: Tables, root: Word, active: set<Word>, owns: Word -> bool) returns (ghost calls: seq<Call<Word>>)
    requires vm.Valid() && vm.f == Arm.FORMAT
    requires root != 0 && root !in active ==>
      && root in vm.spaces && NoBlocks(Arm.FORMAT, vm.mem, vm.own, root) && ArmFrames(vm.mem, vm.own, vm.pool, root, owns)
    modifies vm
    ensures vm.Valid() && vm.mem == old(vm.mem)
    ensures root == 0 || root in active ==> vm.pool == old(vm.pool) && vm.own == old(vm.own) && vm.spaces == old(vm.spaces)
    ensures root != 0 && root !in active ==>
      && ArmFreed(vm.mem, old(vm.own), owns, root, calls) && vm.pool == old(vm.pool) + Pages(calls)
      && vm.own == Without(old(vm.own), root) && vm.spaces == old(vm.spaces) - {root}
  {
    ghost var own, spaces := vm.own, vm.spaces;
    if root != 0 && root !in active {
      ArmMayGo(vm.mem, own, vm.pool, spaces, root, owns);
    }
    calls := Discard(vm, ARM, root, active, owns);
    if root != 0 && root !in active {
      ArmComplete(vm.mem, own, spaces, root, owns, calls);
    }
  }

  lemma ArmMayGo(mem: Memory<Word>, own: Owners<Word>, pool: seq<Word>, spaces: set<Word>, root: Word, owns: Word -> bool)
    requires ZeroFits(Arm.FORMAT) && WellFormed(Arm.FORMAT, mem, own, spaces) && root in spaces
    requires NoBlocks(Arm.FORMAT, mem, own, root) && ArmFrames(mem, own, pool, root, owns)
    ensures MayGo(ARM, mem, own, pool, spaces, root, owns) && Discardable(ARM, mem, own, root)
  {
    ArmReads();
    ArmVisits(mem, root);
    DiscardableIf(ARM, mem, own, spaces, root);
    ArmFramesOk(mem, own, pool, root, owns);
  }

  ghost predicate AmdFrames(mem: Memory<Word>, own: Owners<Word>, pool: seq<Word>, root: Word, owns: Word -> bool) {
    && (forall page, virt :: AmdOwned(mem, root, owns, page, virt) ==> IsPage(page) && !Owned(own, page) && page !in pool)
    && (forall page, u, v :: AmdOwned(mem, root, owns, page, u) && AmdOwned(mem, root, owns, page, v) ==> u == v)
  }

  lemma AmdFramesOk(mem: Memory<Word>, own: Owners<Word>, pool: seq<Word>, root: Word, owns: Word -> bool)
    requires ZeroFits(Amd.FORMAT) && (forall s :: s in mem ==> s.index < 512) && AmdFrames(mem, own, pool, root, owns)
    ensures FramesOk(AMD, mem, own, pool, root, owns)
  {
    forall c: Call<Word> | c.FreeFrame? && DueAtRoot(AMD, mem, owns, root, c)
      ensures c.at == Amd.PathOf(c.virt) && AmdOwned(mem, root, owns, c.page, c.virt)
    {
      AmdDue(mem, owns, root, c.page, c.at, c.virt);
    }
  }

  ghost predicate AmdFreed(mem: Memory<Word>, own: Owners<Word>, owns: Word -> bool, root: Word, calls: seq<Call<Word>>) {
    && DistinctPlaces(calls)
    && (forall page, at, virt :: FreeFrame(page, at, virt) in calls <==> at == Amd.PathOf(virt) && AmdOwned(mem, root, owns, page, virt))
    && (forall page, at :: FreeTable(page, at) in calls ==> Owned(own, page) && HomeOf(own, page) == Home(Some(root), at))
    && (forall page, at :: FreeTable(page, at) in calls <==> AmdTable(mem, root, page, at))
  }

  /** Indices `at` of the private part lead to the table `page`. */
  ghost predicate AmdTable(mem: Memory<Word>, root: Word, page: Word, at: Path<Word>) {
    |at| < 4 && (at != [] ==> !Amd.FORMAT.shared(at[0])) && Follow(Amd.FORMAT, mem, root, 4, at) == Some(page)
  }

  lemma AmdTableDue(mem: Memory<Word>, owns: Word -> bool, root: Word, page: Word, at: Path<Word>)
    requires UpperHalfEmpty(mem, root) && ZeroFits(Amd.FORMAT) && forall s :: s in mem ==> s.index < 512
    ensures DueAtRoot(AMD, mem, owns, root, FreeTable(page, at)) <==> AmdTable(mem, root, page, at)
  {
    assert at[0..] == at;
    if at != [] {
      assert at[0] >= 512 ==> Slot(root, at[0]) !in mem;
      AmdVisits(mem, root);
    }
  }

  lemma AmdComplete(mem: Memory<Word>, own: Owners<Word>, spaces: set<Word>, root: Word, owns: Word -> bool, calls: seq<Call<Word>>)
    requires UpperHalfEmpty(mem, root) && ZeroFits(Amd.FORMAT) && WellFormed(Amd.FORMAT, mem, own, spaces) && root in spaces
    requires Discardable(AMD, mem, own, root) && Complete(AMD, mem, owns, root, calls)
    ensures AmdFreed(mem, own, owns, root, calls)
  {
    forall page, at, virt
      ensures FreeFrame(page, at, virt) in calls <==> at == Amd.PathOf(virt) && AmdOwned(mem, root, owns, page, virt)
    {
      AmdDue(mem, owns, root, page, at, virt);
    }
    forall page, at
      ensures FreeTable(page, at) in calls <==> AmdTable(mem, root, page, at)
      ensures FreeTable(page, at) in calls ==> Owned(own, page) && HomeOf(own, page) == Home(Some(root), at)
    {
      AmdTableDue(mem, owns, root, page, at);
      if FreeTable(page, at) in calls {
        AmdReads();
        TableHangs(AMD, mem, own, root, owns, page, at);
      }
    }
  }

  /** Discarding an address space on AMD64, if nothing is mapped above the user range. */
  method DiscardAmd(vm: Tables, root: Word, active: set<Word>, owns: Word -> bool) returns (ghost calls: seq<Call<Word>>)
    requires vm.Valid() && vm.f == Amd.FORMAT
    requires root != 0 && root !in active ==>
      && root in vm.spaces && NoBlocks(Amd.FORMAT, vm.mem, vm.own, root) && AmdFrames(vm.mem, vm.own, vm.pool, root, owns) && UpperHalfEmpty(vm.mem, root)
    modifies vm
    ensures vm.Valid() && vm.mem == old(vm.mem)
    ensures root == 0 || root in active ==> vm.pool == old(vm.pool) && vm.own == old(vm.own) && vm.spaces == old(vm.spaces)
    ensures root != 0 && root !in active ==>
      && AmdFreed(vm.mem, old(vm.own), owns, root, calls) && vm.pool == old(vm.pool) + Pages(calls)
      && vm.own == Without(old(vm.own), root) && vm.spaces == old(vm.spaces) - {root}
  {
    ghost var own, spaces := vm.own, vm.spaces;
    if root != 0 && root !in active {
      AmdMayGo(vm.mem, own, vm.pool, spaces, root, owns);
    }
    calls := Discard(vm, AMD, root, active, owns);
    if root != 0 && root !in active {
      AmdComplete(vm.mem, own, spaces, root, owns, calls);
    }
  }

  lemma AmdMayGo(mem: Memory<Word>, own: Owners<Word>, pool: seq<Word>, spaces: set<Word>, root: Word, owns: Word -> bool)
    requires ZeroFits(Amd.FORMAT) && WellFormed(Amd.FORMAT, mem, own, spaces) && root in spaces
    requires NoBlocks(Amd.FORMAT, mem, own, root) && AmdFrames(mem, own, pool, root, owns) && UpperHalfEmpty(mem, root)
    ensures MayGo(AMD, mem, own, pool, spaces, root, owns) && Discardable(AMD, mem, own, root)
  {
    AmdReads();
    AmdVisits(mem, root);
    DiscardableIf(AMD, mem, own, spaces, root);
    AmdFramesOk(mem, own, pool, root, owns);
  }
}
