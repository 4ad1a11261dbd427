/** The permission round trip on AArch64: from flags through descriptors and tables to the user walk. */
module Aarch64Access {
  import opened Options
  import opened Radix
  import opened PageTables
  import opened Permissions
  import Arm = Aarch64
  import ArmVmm = Aarch64Vmm

  /** The operation succeeds. */
  ghost predicate Fits(at: Stage, root: Word, op: Op) {
    match op
    case Map(virt, phys, _) =>
      Arm.UserRange(virt, 0x1000) && ArmVmm.PageAligned(virt) && ArmVmm.PageAligned(phys)
      && ArmVmm.TablesNeeded(at.mem, root, virt) <= |at.pool|
    case MapLarge(virt, phys, _) =>
      Arm.UserRange(virt, 0x20_0000) && ArmVmm.BlockAligned(virt) && ArmVmm.BlockAligned(phys)
      && ArmVmm.RoomForBlock(at.mem, at.pool, root, virt)
    case Protect(virt, _) =>
      Arm.UserRange(virt, 0x1000) && ArmVmm.PageAligned(virt) && !ArmVmm.InBlock(at.mem, root, virt)
      && Arm.View(at.mem, root, Arm.PathOf(virt)).Some?
    case Unmap(virt) => Arm.UserRange(virt, 0x1000) && ArmVmm.PageAligned(virt)
  }

  /** It concerns the page at `path`: its own page, or all pages of the block it makes or removes. */
  ghost predicate Touches(at: Stage, root: Word, op: Op, path: Path<Word>)
    requires |path| == 3
  {
    var own := Arm.PathOf(op.virt);
    if op.MapLarge? || (op.Unmap? && ArmVmm.InBlock(at.mem, root, op.virt)) then own[0] == path[0] && own[1] == path[1]
    else own == path
  }

  ghost predicate Hits(at: Stage, root: Word, op: Op, path: Path<Word>)
    requires |path| == 3
  {
    Fits(at, root, op) && Touches(at, root, op, path)
  }

  /** What the page is then mapped to. */
  function Result(op: Op, before: Option<Arm.Pte>, path: Path<Word>): Option<Arm.Pte>
    requires |path| == 3
  {
    match op
    case Map(_, phys, flags) => Some(Encoded(phys & Arm.ADDR, flags))
    case MapLarge(_, phys, flags) => ArmVmm.BlockPte(ArmVmm.BlockWord(phys, flags), path)
    case Protect(_, flags) => if before.Some? then Some(ArmVmm.Protected(before.value, flags)) else None
    case Unmap(_) => None
  }

  /** How flags are kept beside a frame. */
  function Encoded(frame: Word, flags: Word): Arm.Pte {
    Arm.Pte(frame, Arm.VALID | Arm.FlagsToDesc(flags))
  }

  lemma ProtectReplaces(frame: Word, f: Word, g: Word)
    ensures ArmVmm.Protected(Encoded(frame, f), g) == Encoded(frame, g)
  {
  }

  lemma BlockEncodes(phys: Word, flags: Word, path: Path<Word>)
    requires |path| == 3
    ensures ArmVmm.BlockPte(ArmVmm.BlockWord(phys, flags), path) == Some(Encoded((phys & Arm.ADDR & !Arm.BLOCK_OFFSET) | (path[2] << 12), flags))
  {
    ArmVmm.BlockWordIsBlock(phys, flags);
    BlockWordEncodes(phys, flags);
  }

  lemma BlockWordEncodes(phys: Word, flags: Word)
    ensures ArmVmm.BlockWord(phys, flags) & Arm.ADDR & !Arm.BLOCK_OFFSET == phys & Arm.ADDR & !Arm.BLOCK_OFFSET
    ensures Arm.Attributes(ArmVmm.BlockWord(phys, flags)) == Arm.VALID | Arm.FlagsToDesc(flags)
  {
  }

  lemma GrantAllows(flags: Word, write: bool)
    requires FlagsGrant(flags, write)
    ensures ArmVmm.Allows(Arm.VALID | Arm.FlagsToDesc(flags), write)
  {
  }

  lemma AllowsGrant(flags: Word, write: bool)
    requires ArmVmm.Allows(Arm.VALID | Arm.FlagsToDesc(flags), write)
    ensures FlagsGrant(flags, write)
  {
  }

  /** Encoding and decoding: new flags replace the old ones, and the user check grants what the flags grant. */
  lemma Faithful(frame: Word, f: Word, g: Word, write: bool)
    ensures ArmVmm.Protected(Encoded(frame, f), g) == Encoded(frame, g)
    ensures ArmVmm.Grants(Some(Encoded(frame, f)), write) <==> FlagsGrant(f, write)
  {
    ProtectReplaces(frame, f, g);
    if FlagsGrant(f, write) { GrantAllows(f, write); }
    if ArmVmm.Allows(Arm.VALID | Arm.FlagsToDesc(f), write) { AllowsGrant(f, write); }
  }

  /** The page is not mapped, or as a mapping with some flags leaves it. */
  ghost predicate Plain(pte: Option<Arm.Pte>) {
    pte.Some? ==> exists f :: pte.value == Encoded(pte.value.frame, f)
  }

  /** The page is as the last operation on it left it, or as it was first. */
  ghost predicate Settled(pte: Option<Arm.Pte>, last: Option<Option<Word>>, first: Option<Arm.Pte>) {
    match last
    case None => pte == first && Plain(first)
    case Some(None) => pte == None
    case Some(Some(flags)) => pte.Some? && pte.value == Encoded(pte.value.frame, flags)
  }

  lemma Settles(at: Stage, root: Word, op: Op, path: Path<Word>, pte: Option<Arm.Pte>, last: Option<Option<Word>>, first: Option<Arm.Pte>)
    requires |path| == 3 && Hits(at, root, op, path) && pte == Arm.View(at.mem, root, path) && Settled(pte, last, first)
    ensures Settled(Result(op, pte, path), Some(FlagsOf(op)), first)
  {
    match op
    case Map(_, _, _) =>
    case MapLarge(_, phys, flags) => BlockEncodes(phys, flags, path);
    case Protect(_, g) =>
      var f :| pte.value == Encoded(pte.value.frame, f);
      ProtectReplaces(pte.value.frame, f, g);
    case Unmap(_) =>
  }

  /** What one operation does to every page of the address space. */
  ghost predicate Stepped(at: Stage, mem: Memory<Word>, root: Word, op: Op) {
    forall path :: Arm.IsPath(path) ==>
      Arm.View(mem, root, path) ==
        if Hits(at, root, op, path) then Result(op, Arm.View(at.mem, root, path), path) else Arm.View(at.mem, root, path)
  }

  lemma Mapped(at: Stage, mem: Memory<Word>, spaces: set<Word>, root: Word, op: Op)
    requires root in spaces && (op.Map? || op.Protect?)
    requires if Fits(at, root, op)
             then ArmVmm.PageUpdated(spaces, at.mem, mem, root, Arm.PathOf(op.virt), Result(op, Arm.View(at.mem, root, Arm.PathOf(op.virt)), Arm.PathOf(op.virt)))
             else Arm.SameViews(spaces, at.mem, mem)
    ensures Stepped(at, mem, root, op)
  {
  }

  lemma MappedPage(at: Stage, mem: Memory<Word>, spaces: set<Word>, root: Word, op: Op)
    requires root in spaces && op.Map?
    requires if Arm.UserRange(op.virt, 0x1000) && ArmVmm.PageAligned(op.virt) && ArmVmm.PageAligned(op.phys)
                && ArmVmm.TablesNeeded(at.mem, root, op.virt) <= |at.pool|
             then ArmVmm.PageUpdated(spaces, at.mem, mem, root, Arm.PathOf(op.virt), Some(Arm.Pte(op.phys & Arm.ADDR, Arm.VALID | Arm.FlagsToDesc(op.flags))))
             else Arm.SameViews(spaces, at.mem, mem)
    ensures Stepped(at, mem, root, op)
  {
    PageResult(op, Arm.View(at.mem, root, Arm.PathOf(op.virt)), Arm.PathOf(op.virt));
    assert Fits(at, root, op) == (Arm.UserRange(op.virt, 0x1000) && ArmVmm.PageAligned(op.virt) && ArmVmm.PageAligned(op.phys)
                                  && ArmVmm.TablesNeeded(at.mem, root, op.virt) <= |at.pool|);
    Mapped(at, mem, spaces, root, op);
  }

  lemma PageResult(op: Op, before: Option<Arm.Pte>, path: Path<Word>)
    requires op.Map? && |path| == 3
    ensures Result(op, before, path) == Some(Arm.Pte(op.phys & Arm.ADDR, Arm.VALID | Arm.FlagsToDesc(op.flags)))
  {
  }

  lemma MappedLarge(at: Stage, mem: Memory<Word>, spaces: set<Word>, root: Word, op: Op)
    requires root in spaces && op.MapLarge?
    requires if Fits(at, root, op)
             then ArmVmm.BlockUpdated(spaces, at.mem, mem, root, Arm.PathOf(op.virt), ArmVmm.BlockWord(op.phys, op.flags))
             else Arm.SameViews(spaces, at.mem, mem)
    ensures Stepped(at, mem, root, op)
  {
  }

  lemma Unmapped(at: Stage, mem: Memory<Word>, spaces: set<Word>, root: Word, op: Op)
    requires root in spaces && op.Unmap?
    requires if !Fits(at, root, op) then Arm.SameViews(spaces, at.mem, mem)
             else if ArmVmm.InBlock(at.mem, root, op.virt) then ArmVmm.BlockUpdated(spaces, at.mem, mem, root, Arm.PathOf(op.virt), 0)
             else ArmVmm.PageUpdated(spaces, at.mem, mem, root, Arm.PathOf(op.virt), None)
    ensures Stepped(at, mem, root, op)
  {
  }

  method Do(vm: Tables, root: Word, op: Op)
    requires ArmVmm.Ready(vm) && root in vm.spaces
    modifies vm
    ensures ArmVmm.Ready(vm) && root in vm.spaces
    ensures Stepped(Stage(old(vm.mem), old(vm.pool)), vm.mem, root, op)
  {
    match op
    case Map(_, _, _) => DoMap(vm, root, op);
    case MapLarge(_, _, _) => DoMapLarge(vm, root, op);
    case Protect(_, _) => DoProtect(vm, root, op);
    case Unmap(_) => DoUnmap(vm, root, op);
  }

  method DoMap(vm: Tables, root: Word, op: Op)
    requires ArmVmm.Ready(vm) && root in vm.spaces && op.Map?
    modifies vm
    ensures ArmVmm.Ready(vm) && root in vm.spaces
    ensures Stepped(Stage(old(vm.mem), old(vm.pool)), vm.mem, root, op)
  {
    ghost var at := Stage(vm.mem, vm.pool);
    ArmVmm.Map(vm, root, op.virt, op.phys, op.flags);
    MappedPage(at, vm.mem, vm.spaces, root, op);
  }

  method DoMapLarge(vm: Tables, root: Word, op: Op)
    requires ArmVmm.Ready(vm) && root in vm.spaces && op.MapLarge?
    modifies vm
    ensures ArmVmm.Ready(vm) && root in vm.spaces
    ensures Stepped(Stage(old(vm.mem), old(vm.pool)), vm.mem, root, op)
  {
    ghost var at := Stage(vm.mem, vm.pool);
    ArmVmm.Map2mb(vm, root, op.virt, op.phys, op.flags);
    MappedLarge(at, vm.mem, vm.spaces, root, op);
  }

  method DoProtect(vm: Tables, root: Word, op: Op)
    requires ArmVmm.Ready(vm) && root in vm.spaces && op.Protect?
    modifies vm
    ensures ArmVmm.Ready(vm) && root in vm.spaces
    ensures Stepped(Stage(old(vm.mem), old(vm.pool)), vm.mem, root, op)
  {
    ghost var at := Stage(vm.mem, vm.pool);
    var done := ArmVmm.Protect(vm, root, op.virt, op.flags);
    Mapped(at, vm.mem, vm.spaces, root, op);
  }

  method DoUnmap(vm: Tables, root: Word, op: Op)
    requires ArmVmm.Ready(vm) && root in vm.spaces && op.Unmap?
    modifies vm
    ensures ArmVmm.Ready(vm) && root in vm.spaces
    ensures Stepped(Stage(old(vm.mem), old(vm.pool)), vm.mem, root, op)
  {
    ghost var at := Stage(vm.mem, vm.pool);
    ArmVmm.Unmap(vm, root, op.virt);
    Unmapped(at, vm.mem, vm.spaces, root, op);
  }

  /** Which of the operations succeeded on the page at `path`. */
  ghost function HitsAll(root: Word, stages: seq<Stage>, ops: seq<Op>, path: Path<Word>): seq<bool>
    requires |stages| >= |ops| && |path| == 3
  {
    seq(|ops|, i requires 0 <= i < |ops| => Hits(stages[i], root, ops[i], path))
  }

  /** From the first stage to the last, the page is as the operations that succeeded on it left it. */
  ghost predicate Tracked(root: Word, stages: seq<Stage>, ops: seq<Op>, path: Path<Word>) {
    && |stages| == |ops| + 1 && |path| == 3
    && Settled(Arm.View(stages[|ops|].mem, root, path), Last(ops, HitsAll(root, stages, ops, path)), Arm.View(stages[0].mem, root, path))
  }

  lemma HitsSnoc(root: Word, stages: seq<Stage>, ops: seq<Op>, path: Path<Word>, op: Op, next: Stage)
    requires |stages| == |ops| + 1 && |path| == 3
    ensures HitsAll(root, stages + [next], ops + [op], path)
      == HitsAll(root, stages, ops, path) + [Hits(stages[|ops|], root, op, path)]
  {
  }

  lemma Advances(at: Stage, mem: Memory<Word>, root: Word, op: Op, path: Path<Word>, last: Option<Option<Word>>, first: Option<Arm.Pte>)
    requires Arm.IsPath(path) && Stepped(at, mem, root, op) && Settled(Arm.View(at.mem, root, path), last, first)
    ensures Settled(Arm.View(mem, root, path), if Hits(at, root, op, path) then Some(FlagsOf(op)) else last, first)
  {
    if Hits(at, root, op, path) {
      Settles(at, root, op, path, Arm.View(at.mem, root, path), last, first);
    }
  }

  lemma TrackStep(root: Word, stages: seq<Stage>, ops: seq<Op>, path: Path<Word>, op: Op, next: Stage)
    requires Tracked(root, stages, ops, path) && Arm.IsPath(path) && Stepped(stages[|ops|], next.mem, root, op)
    ensures Tracked(root, stages + [next], ops + [op], path)
  {
    var at, hit := stages[|ops|], HitsAll(root, stages, ops, path);
    HitsSnoc(root, stages, ops, path, op, next);
    LastStep(ops, hit, op, Hits(at, root, op, path));
    Advances(at, next.mem, root, op, path, Last(ops, hit), Arm.View(stages[0].mem, root, path));
  }

  lemma Begun(root: Word, stages: seq<Stage>, path: Path<Word>)
    requires |stages| == 1 && |path| == 3 && Plain(Arm.View(stages[0].mem, root, path))
    ensures Tracked(root, stages, [], path)
  {
  }

  method Next(vm: Tables, root: Word, ghost stages: seq<Stage>, ghost ops: seq<Op>, ghost path: Path<Word>, op: Op)
    returns (ghost more: seq<Stage>)
    requires ArmVmm.Ready(vm) && root in vm.spaces && Arm.IsPath(path) && Tracked(root, stages, ops, path)
    requires stages[|ops|] == Stage(vm.mem, vm.pool)
    modifies vm
    ensures ArmVmm.Ready(vm) && root in vm.spaces
    ensures more == stages + [Stage(vm.mem, vm.pool)] && Tracked(root, more, ops + [op], path)
  {
    Do(vm, root, op);
    TrackStep(root, stages, ops, path, op, Stage(vm.mem, vm.pool));
    more := stages + [Stage(vm.mem, vm.pool)];
  }

  /** Any operations on any pages of the address space; `stages` are the tables before each of them and at the end. */
  method Perform(vm: Tables, root: Word, ops: seq<Op>, ghost path: Path<Word>) returns (ghost stages: seq<Stage>)
    requires ArmVmm.Ready(vm) && root in vm.spaces && Arm.IsPath(path) && Plain(Arm.View(vm.mem, root, path))
    modifies vm
    ensures ArmVmm.Ready(vm) && root in vm.spaces
    ensures Tracked(root, stages, ops, path)
    ensures stages[0] == Stage(old(vm.mem), old(vm.pool)) && stages[|ops|] == Stage(vm.mem, vm.pool)
  {
    stages := [Stage(vm.mem, vm.pool)];
    var i := 0;
    Begun(root, stages, path);
    assert ops[..0] == [];
    while i < |ops|
      invariant i <= |ops| && ArmVmm.Ready(vm) && root in vm.spaces
      invariant Tracked(root, stages, ops[..i], path)
      invariant stages[0] == Stage(old(vm.mem), old(vm.pool)) && stages[i] == Stage(vm.mem, vm.pool)
    {
      stages := Next(vm, root, stages, ops[..i], path, ops[i]);
      Prefix(ops, i);
      i := i + 1;
    }
    assert ops[..i] == ops;
  }

  lemma InRange(virt: Word)
    ensures Arm.IsPath(Arm.PathOf(virt))
  {
  }

  /**
   * After any operations on the pages of an address space, the user walk of an address finds what
   * the kernel walk finds if the last flags given successfully for its page grant the access, and
   * nothing otherwise.
   */
  method RoundTrip(vm: Tables, root: Word, ops: seq<Op>, virt: Word, write: bool)
    returns (user: Word, phys: Word, ghost stages: seq<Stage>)
    requires ArmVmm.Ready(vm) && root in vm.spaces && Plain(Arm.View(vm.mem, root, Arm.PathOf(virt)))
    modifies vm
    ensures ArmVmm.Ready(vm)
    ensures |stages| == |ops| + 1 && stages[0] == Stage(old(vm.mem), old(vm.pool)) && stages[|ops|] == Stage(vm.mem, vm.pool)
    ensures user == 0 || Arm.UserRange(virt, 1)
    ensures Arm.UserRange(virt, 1) ==>
      match Last(ops, HitsAll(root, stages, ops, Arm.PathOf(virt)))
      case None =>
        var first := Arm.View(old(vm.mem), root, Arm.PathOf(virt));
        user == ArmVmm.UserPhys(first, virt, write) && phys == ArmVmm.PhysOf(first, virt)
      case Some(None) => user == phys == 0
      case Some(Some(flags)) => user == if FlagsGrant(flags, write) then phys else 0
  {
    InRange(virt);
    stages := Perform(vm, root, ops, Arm.PathOf(virt));
    phys := ArmVmm.GetPhys(vm, root, virt);
    user := ArmVmm.GetUserPhys(vm, root, virt, write);
    ghost var last, pte := Last(ops, HitsAll(root, stages, ops, Arm.PathOf(virt))), Arm.View(vm.mem, root, Arm.PathOf(virt));
    if last.Some? && last.value.Some? {
      Faithful(pte.value.frame, last.value.value, 0, write);
    }
  }
}
