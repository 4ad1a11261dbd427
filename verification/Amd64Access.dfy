/** The permission round trip on AMD64: from flags through entries and tables to the user walk. */
module Amd64Access {
  import opened Options
  import opened Radix
  import opened PageTables
  import opened Permissions
  import Amd = Amd64
  import AmdVmm = Amd64Vmm

  /** On AMD64 the flags say whether the page is there at all. */
  predicate Granted(flags: Word, write: bool) {
    flags & Amd.PRESENT != 0 && FlagsGrant(flags, write)
  }

  /** The operation succeeds. */
  ghost predicate Fits(at: Stage, root: Word, op: Op) {
    match op
    case Map(virt, phys, _) =>
      Amd.UserRange(virt, 0x1000) && AmdVmm.PageAligned(virt) && AmdVmm.PageAligned(phys)
      && Missing(Amd.FORMAT, at.mem, root, Amd.PathOf(virt)) <= |at.pool| && !AmdVmm.Covered(at.mem, root, Amd.PathOf(virt))
    case MapLarge(virt, phys, _) =>
      Amd.UserRange(virt, 0x20_0000) && AmdVmm.LargeAligned(virt) && AmdVmm.LargeAligned(phys)
      && AmdVmm.RoomForLarge(at.mem, at.pool, root, Amd.PathOf(virt))
    case Protect(virt, _) =>
      Amd.UserRange(virt, 0x1000) && AmdVmm.PageAligned(virt) && AmdVmm.OnPage(at.mem, root, Amd.PathOf(virt))
    case Unmap(virt) => Amd.UserRange(virt, 0x1000) && AmdVmm.PageAligned(virt)
  }

  /** It concerns the page at `path`: its own page, or all pages of the large page it makes or removes. */
  ghost predicate Touches(at: Stage, root: Word, op: Op, path: Path<Word>)
    requires |path| == 4
  {
    var own := Amd.PathOf(op.virt);
    if op.MapLarge? || (op.Unmap? && AmdVmm.Covered(at.mem, root, own)) then AmdVmm.SameLarge(path, own) else own == path
  }

  ghost predicate Hits(at: Stage, root: Word, op: Op, path: Path<Word>)
    requires |path| == 4
  {
    Fits(at, root, op) && Touches(at, root, op, path)
  }

  /** What the page is then mapped to. */
  ghost function Result(at: Stage, root: Word, op: Op, path: Path<Word>): Option<Amd.Pte>
    requires |path| == 4 && Hits(at, root, op, path)
  {
    match op
    case Map(_, phys, flags) => AmdVmm.PagePte(AmdVmm.PageWord(phys, flags))
    case MapLarge(_, phys, flags) => AmdVmm.LargePte(AmdVmm.LargeWord(phys, flags), path)
    case Protect(_, flags) => AmdVmm.PagePte(AmdVmm.Protected(Walk(Amd.FORMAT, at.mem, root, path).word, flags))
    case Unmap(_) => None
  }

  lemma WordGrants(w: Word, flags: Word, write: bool)
    requires w & 7 == flags & 7
    ensures AmdVmm.HasAccess(w, write) <==> Granted(flags, write)
  {
    if AmdVmm.HasAccess(w, write) { AccessGranted(w, flags, write); }
    if Granted(flags, write) { GrantedAccess(w, flags, write); }
  }

  lemma AccessGranted(w: Word, flags: Word, write: bool)
    requires w & 7 == flags & 7 && AmdVmm.HasAccess(w, write)
    ensures Granted(flags, write)
  {
  }

  lemma GrantedAccess(w: Word, flags: Word, write: bool)
    requires w & 7 == flags & 7 && Granted(flags, write)
    ensures AmdVmm.HasAccess(w, write)
  {
  }

  lemma LowBits(phys: Word, w: Word, flags: Word)
    ensures AmdVmm.PageAligned(phys) ==> AmdVmm.PageWord(phys, flags) & 7 == flags & 7
    ensures AmdVmm.LargeWord(phys, flags) & 7 == flags & 7
    ensures AmdVmm.Protected(w, flags) & 7 == flags & 7
  {
  }

  /** Encoding and decoding: whatever the entry was, it grants what the flags grant. */
  lemma Faithful(phys: Word, w: Word, flags: Word, path: Path<Word>, write: bool)
    requires AmdVmm.PageAligned(phys) && |path| == 4
    ensures AmdVmm.Grants(AmdVmm.PagePte(AmdVmm.PageWord(phys, flags)), write) <==> Granted(flags, write)
    ensures AmdVmm.Grants(AmdVmm.LargePte(AmdVmm.LargeWord(phys, flags), path), write) <==> Granted(flags, write)
    ensures AmdVmm.Grants(AmdVmm.PagePte(AmdVmm.Protected(w, flags)), write) <==> Granted(flags, write)
  {
    var page, large, changed := AmdVmm.PageWord(phys, flags), AmdVmm.LargeWord(phys, flags), AmdVmm.Protected(w, flags);
    LowBits(phys, w, flags);
    WordGrants(page, flags, write);
    AmdVmm.PageGrants(page, write);
    WordGrants(large, flags, write);
    AmdVmm.LargeGrants(large, path, write);
    WordGrants(changed, flags, write);
    AmdVmm.PageGrants(changed, write);
  }

  /** The page is as the last operation on it left it, or as it was first. */
  ghost predicate Settled(pte: Option<Amd.Pte>, last: Option<Option<Word>>, first: Option<Amd.Pte>) {
    match last
    case None => pte == first
    case Some(None) => pte == None
    case Some(Some(flags)) => forall write :: AmdVmm.Grants(pte, write) <==> Granted(flags, write)
  }

  lemma Settles(at: Stage, root: Word, op: Op, path: Path<Word>, first: Option<Amd.Pte>)
    requires |path| == 4 && Hits(at, root, op, path)
    ensures Settled(Result(at, root, op, path), Some(FlagsOf(op)), first)
  {
    if !op.Unmap? {
      var phys := if op.Protect? then 0 else op.phys;
      var w := if op.Protect? then Walk(Amd.FORMAT, at.mem, root, path).word else 0;
      Aligned(phys);
      forall write
        ensures AmdVmm.Grants(Result(at, root, op, path), write) <==> Granted(op.flags, write)
      {
        Faithful(phys, w, op.flags, path, write);
      }
    }
  }

  lemma Aligned(phys: Word)
    ensures AmdVmm.LargeAligned(phys) ==> AmdVmm.PageAligned(phys)
  {
  }

  /** What one operation does to every page of the address space. */
  ghost predicate Stepped(at: Stage, mem: Memory<Word>, root: Word, op: Op) {
    forall path :: Amd.IsPath(path) ==>
      Amd.View(mem, root, path) == if Hits(at, root, op, path) then Result(at, root, op, path) else Amd.View(at.mem, root, path)
  }

  /** No large page of the address space lies over memory that page tables are made of. */
  ghost predicate Apart(mem: Memory<Word>, arena: set<Word>, root: Word) {
    forall path :: Amd.IsPath(path) && path[0] != 0 && AmdVmm.Covered(mem, root, path) ==>
      Walk(Amd.FORMAT, mem, root, path).word & Amd.ADDR !in arena
  }

  /** Kernel identity maps aside; large pages are not put over page-table memory either. */
  ghost predicate Proper(arena: set<Word>, op: Op) {
    match op
    case Map(virt, phys, flags) => AmdVmm.MayMap(virt, phys, flags, 0x1000) ==> Amd.UserRange(virt, 0x1000)
    case MapLarge(virt, phys, flags) =>
      && (AmdVmm.MayMap(virt, phys, flags, 0x20_0000) ==> Amd.UserRange(virt, 0x20_0000))
      && AmdVmm.LargeWord(phys, flags) & Amd.ADDR !in arena
    case _ => true
  }

  lemma StaysApart(spaces: set<Word>, m: Memory<Word>, n: Memory<Word>, arena: set<Word>, root: Word, ws: set<Word>)
    requires root in spaces && Apart(m, arena, root) && AmdVmm.LargeFrom(spaces, m, n, ws)
    requires forall w :: w in ws ==> w & Amd.ADDR !in arena
    ensures Apart(n, arena, root)
  {
    forall path | Amd.IsPath(path) && path[0] != 0 && AmdVmm.Covered(n, root, path)
      ensures Walk(Amd.FORMAT, n, root, path).word & Amd.ADDR !in arena
    {
      if Walk(Amd.FORMAT, n, root, path) == Walk(Amd.FORMAT, m, root, path) {
        assert AmdVmm.Covered(m, root, path);
      }
    }
  }

  lemma MayMapHere(vm: Tables, root: Word, virt: Word)
    requires AmdVmm.Ready(vm) && root in vm.spaces && Apart(vm.mem, vm.arena, root) && Amd.UserRange(virt, 1)
    ensures AmdVmm.Mappable(vm.mem, vm.own, root, virt)
  {
    Amd.UserIsPrivate(virt);
    AmdVmm.PathInRange(virt);
    assert !Owned(vm.own, 0);
  }

  lemma UserSizes(virt: Word)
    ensures Amd.UserRange(virt, 0x1000) || Amd.UserRange(virt, 0x20_0000) ==> Amd.UserRange(virt, 1)
  {
  }

  lemma Mapped(at: Stage, mem: Memory<Word>, spaces: set<Word>, root: Word, op: Op)
    requires root in spaces && (op.Map? || op.Protect?)
    requires if Fits(at, root, op)
             then Amd.IsPath(Amd.PathOf(op.virt)) && AmdVmm.PageUpdated(spaces, at.mem, mem, root, Amd.PathOf(op.virt), Result(at, root, op, Amd.PathOf(op.virt)))
             else Amd.SameViews(spaces, at.mem, mem)
    ensures Stepped(at, mem, root, op)
  {
  }

  lemma MappedLarge(at: Stage, mem: Memory<Word>, spaces: set<Word>, root: Word, op: Op)
    requires root in spaces && op.MapLarge?
    requires if Fits(at, root, op)
             then AmdVmm.LargeUpdated(spaces, at.mem, mem, root, Amd.PathOf(op.virt), AmdVmm.LargeWord(op.phys, op.flags))
             else Amd.SameViews(spaces, at.mem, mem)
    ensures Stepped(at, mem, root, op)
  {
  }

  lemma AfterLarge(at: Stage, mem: Memory<Word>, spaces: set<Word>, arena: set<Word>, root: Word, op: Op)
    requires root in spaces && op.MapLarge? && Apart(at.mem, arena, root) && Proper(arena, op)
    requires AmdVmm.LargeFrom(spaces, at.mem, mem, {AmdVmm.LargeWord(op.phys, op.flags)})
    requires if Fits(at, root, op)
             then AmdVmm.LargeUpdated(spaces, at.mem, mem, root, Amd.PathOf(op.virt), AmdVmm.LargeWord(op.phys, op.flags))
             else Amd.SameViews(spaces, at.mem, mem)
    ensures Stepped(at, mem, root, op) && Apart(mem, arena, root)
  {
    StaysApart(spaces, at.mem, mem, arena, root, {AmdVmm.LargeWord(op.phys, op.flags)});
    MappedLarge(at, mem, spaces, root, op);
  }

  lemma Unmapped(at: Stage, mem: Memory<Word>, spaces: set<Word>, root: Word, op: Op)
    requires root in spaces && op.Unmap?
    requires if !Amd.UserRange(op.virt, 0x1000) || !AmdVmm.PageAligned(op.virt) then Amd.SameViews(spaces, at.mem, mem)
             else if AmdVmm.Covered(at.mem, root, Amd.PathOf(op.virt)) then AmdVmm.LargeUpdated(spaces, at.mem, mem, root, Amd.PathOf(op.virt), 0)
             else AmdVmm.PageUpdated(spaces, at.mem, mem, root, Amd.PathOf(op.virt), None)
    ensures Stepped(at, mem, root, op)
  {
  }

  /** The tables are in order and the operations may be done on them. */
  ghost predicate Usable(vm: Tables, root: Word)
    reads vm
  {
    AmdVmm.Ready(vm) && root in vm.spaces && Apart(vm.mem, vm.arena, root)
  }

  method Do(vm: Tables, root: Word, op: Op)
    requires Usable(vm, root) && Proper(vm.arena, op)
    modifies vm
    ensures Usable(vm, root) && vm.arena == old(vm.arena)
    ensures Stepped(Stage(old(vm.mem), old(vm.pool)), vm.mem, root, op)
  {
    match op
    case Map(_, _, _) => DoMap(vm, root, op);
    case MapLarge(_, _, _) => DoMapLarge(vm, root, op);
    case Protect(_, _) => DoProtect(vm, root, op);
    case Unmap(_) => DoUnmap(vm, root, op);
  }

  method DoMap(vm: Tables, root: Word, op: Op)
    requires Usable(vm, root) && Proper(vm.arena, op) && op.Map?
    modifies vm
    ensures Usable(vm, root) && vm.arena == old(vm.arena)
    ensures Stepped(Stage(old(vm.mem), old(vm.pool)), vm.mem, root, op)
  {
    ghost var at := Stage(vm.mem, vm.pool);
    UserSizes(op.virt);
    AmdVmm.PathInRange(op.virt);
    if Amd.UserRange(op.virt, 0x1000) { MayMapHere(vm, root, op.virt); }
    AmdVmm.Map(vm, root, op.virt, op.phys, op.flags);
    StaysApart(vm.spaces, at.mem, vm.mem, vm.arena, root, {});
    Mapped(at, vm.mem, vm.spaces, root, op);
  }

  method DoMapLarge(vm: Tables, root: Word, op: Op)
    requires Usable(vm, root) && Proper(vm.arena, op) && op.MapLarge?
    modifies vm
    ensures Usable(vm, root) && vm.arena == old(vm.arena)
    ensures Stepped(Stage(old(vm.mem), old(vm.pool)), vm.mem, root, op)
  {
    ghost var at := Stage(vm.mem, vm.pool);
    UserSizes(op.virt);
    assert AmdVmm.MayMap(op.virt, op.phys, op.flags, 0x20_0000) == Amd.UserRange(op.virt, 0x20_0000);
    AmdVmm.Map2mb(vm, root, op.virt, op.phys, op.flags);
    AfterLarge(at, vm.mem, vm.spaces, vm.arena, root, op);
  }

  method DoProtect(vm: Tables, root: Word, op: Op)
    requires Usable(vm, root) && op.Protect?
    modifies vm
    ensures Usable(vm, root) && vm.arena == old(vm.arena)
    ensures Stepped(Stage(old(vm.mem), old(vm.pool)), vm.mem, root, op)
  {
    ghost var at := Stage(vm.mem, vm.pool);
    AmdVmm.PathInRange(op.virt);
    var done := AmdVmm.Protect(vm, root, op.virt, op.flags);
    StaysApart(vm.spaces, at.mem, vm.mem, vm.arena, root, {});
    Mapped(at, vm.mem, vm.spaces, root, op);
  }

  method DoUnmap(vm: Tables, root: Word, op: Op)
    requires Usable(vm, root) && op.Unmap?
    modifies vm
    ensures Usable(vm, root) && vm.arena == old(vm.arena)
    ensures Stepped(Stage(old(vm.mem), old(vm.pool)), vm.mem, root, op)
  {
    ghost var at := Stage(vm.mem, vm.pool);
    AmdVmm.Unmap(vm, root, op.virt);
    StaysApart(vm.spaces, at.mem, vm.mem, vm.arena, root, {});
    Unmapped(at, vm.mem, vm.spaces, root, op);
  }

  /** Which of the operations succeeded on the page at `path`. */
  ghost function HitsAll(root: Word, stages: seq<Stage>, ops: seq<Op>, path: Path<Word>): seq<bool>
    requires |stages| >= |ops| && |path| == 4
  {
    seq(|ops|, i requires 0 <= i < |ops| => Hits(stages[i], root, ops[i], path))
  }

  /** From the first stage to the last, the page is as the operations that succeeded on it left it. */
  ghost predicate Tracked(root: Word, stages: seq<Stage>, ops: seq<Op>, path: Path<Word>) {
    && |stages| == |ops| + 1 && |path| == 4
    && Settled(Amd.View(stages[|ops|].mem, root, path), Last(ops, HitsAll(root, stages, ops, path)), Amd.View(stages[0].mem, root, path))
  }

  lemma HitsSnoc(root: Word, stages: seq<Stage>, ops: seq<Op>, path: Path<Word>, op: Op, next: Stage)
    requires |stages| == |ops| + 1 && |path| == 4
    ensures HitsAll(root, stages + [next], ops + [op], path) == HitsAll(root, stages, ops, path) + [Hits(stages[|ops|], root, op, path)]
  {
  }

  lemma Advances(at: Stage, mem: Memory<Word>, root: Word, op: Op, path: Path<Word>, last: Option<Option<Word>>, first: Option<Amd.Pte>)
    requires Amd.IsPath(path) && Stepped(at, mem, root, op) && Settled(Amd.View(at.mem, root, path), last, first)
    ensures Settled(Amd.View(mem, root, path), if Hits(at, root, op, path) then Some(FlagsOf(op)) else last, first)
  {
    if Hits(at, root, op, path) {
      Settles(at, root, op, path, first);
    }
  }

  lemma TrackStep(root: Word, stages: seq<Stage>, ops: seq<Op>, path: Path<Word>, op: Op, next: Stage)
    requires Tracked(root, stages, ops, path) && Amd.IsPath(path) && Stepped(stages[|ops|], next.mem, root, op)
    ensures Tracked(root, stages + [next], ops + [op], path)
  {
    var at, hit := stages[|ops|], HitsAll(root, stages, ops, path);
    HitsSnoc(root, stages, ops, path, op, next);
    LastStep(ops, hit, op, Hits(at, root, op, path));
    Advances(at, next.mem, root, op, path, Last(ops, hit), Amd.View(stages[0].mem, root, path));
  }

  lemma Begun(root: Word, stages: seq<Stage>, path: Path<Word>)
    requires |stages| == 1 && |path| == 4
    ensures Tracked(root, stages, [], path)
  {
  }

  method Next(vm: Tables, root: Word, ghost stages: seq<Stage>, ghost ops: seq<Op>, ghost path: Path<Word>, op: Op)
    returns (ghost more: seq<Stage>)
    requires Usable(vm, root) && Proper(vm.arena, op) && Amd.IsPath(path) && Tracked(root, stages, ops, path)
    requires stages[|ops|] == Stage(vm.mem, vm.pool)
    modifies vm
    ensures Usable(vm, root) && vm.arena == old(vm.arena)
    ensures more == stages + [Stage(vm.mem, vm.pool)] && Tracked(root, more, ops + [op], path)
  {
    Do(vm, root, op);
    TrackStep(root, stages, ops, path, op, Stage(vm.mem, vm.pool));
    more := stages + [Stage(vm.mem, vm.pool)];
  }

  /** Any operations on any pages of the address space; `stages` are the tables before each of them and at the end. */
  method Perform(vm: Tables, root: Word, ops: seq<Op>, ghost path: Path<Word>) returns (ghost stages: seq<Stage>)
    requires Usable(vm, root) && Amd.IsPath(path) && forall i :: 0 <= i < |ops| ==> Proper(vm.arena, ops[i])
    modifies vm
    ensures Usable(vm, root)
    ensures Tracked(root, stages, ops, path)
    ensures stages[0] == Stage(old(vm.mem), old(vm.pool)) && stages[|ops|] == Stage(vm.mem, vm.pool)
  {
    stages := [Stage(vm.mem, vm.pool)];
    var i := 0;
    Begun(root, stages, path);
    assert ops[..0] == [];
    while i < |ops|
      invariant i <= |ops| && Usable(vm, root) && vm.arena == old(vm.arena)
      invariant Tracked(root, stages, ops[..i], path)
      invariant stages[0] == Stage(old(vm.mem), old(vm.pool)) && stages[i] == Stage(vm.mem, vm.pool)
    {
      stages := Next(vm, root, stages, ops[..i], path, ops[i]);
      Prefix(ops, i);
      i := i + 1;
    }
    assert ops[..i] == ops;
  }

  /**
   * After any operations on the pages of an address space, the user walk of an address finds what
   * the kernel walk finds if the last flags given successfully for its page grant the access, and
   * nothing otherwise.
   */
  method RoundTrip(vm: Tables, root: Word, ops: seq<Op>, virt: Word, write: bool)
    returns (user: Word, phys: Word, ghost stages: seq<Stage>)
    requires Usable(vm, root) && Amd.UserRange(virt, 1) && forall i :: 0 <= i < |ops| ==> Proper(vm.arena, ops[i])
    modifies vm
    ensures Usable(vm, root)
    ensures |stages| == |ops| + 1 && stages[0] == Stage(old(vm.mem), old(vm.pool)) && stages[|ops|] == Stage(vm.mem, vm.pool)
    ensures match Last(ops, HitsAll(root, stages, ops, Amd.PathOf(virt)))
      case None => user == AmdVmm.UserPhys(Amd.View(old(vm.mem), root, Amd.PathOf(virt)), virt, write)
      case Some(None) => user == 0
      case Some(Some(flags)) => user == if Granted(flags, write) then phys else 0
  {
    AmdVmm.PathInRange(virt);
    stages := Perform(vm, root, ops, Amd.PathOf(virt));
    AmdVmm.UserNotGiant(vm.mem, vm.own, root, virt);
    phys := AmdVmm.GetPhys(vm, root, virt);
    user := AmdVmm.GetUserPhys(vm, root, virt, write);
    UserOrNot(root, stages, ops, virt, write, user, phys);
  }

  lemma UserOrNot(root: Word, stages: seq<Stage>, ops: seq<Op>, virt: Word, write: bool, user: Word, phys: Word)
    requires Tracked(root, stages, ops, Amd.PathOf(virt))
    requires var pte := Amd.View(stages[|ops|].mem, root, Amd.PathOf(virt));
      user == AmdVmm.UserPhys(pte, virt, write) && (pte.Some? ==> phys == AmdVmm.PhysOf(pte, virt))
    ensures match Last(ops, HitsAll(root, stages, ops, Amd.PathOf(virt)))
      case None => user == AmdVmm.UserPhys(Amd.View(stages[0].mem, root, Amd.PathOf(virt)), virt, write)
      case Some(None) => user == 0
      case Some(Some(flags)) => user == if Granted(flags, write) then phys else 0
  {
  }
}
