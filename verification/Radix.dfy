/**
 * Radix page tables, walked the way the hardware walks them.
 *
 * The theory does not depend on how entries are encoded: `W` is the machine word and a
 * `Format` says what a word means at each level.
 */
module Radix {
  import opened Options

  /** One entry of one table page. */
  datatype Slot<W> = Slot(table: W, index: W)

  /** Table memory; a word never stored reads as zero. */
  type Memory<W(==)> = map<Slot<W>, W>

  /** What an entry is: nothing, the end of a translation, or a link to the next table. */
  datatype Kind<W> = Hole | Leaf | Table(next: W)

  /**
   * `kind(rest, w)` is the meaning of word `w` with `rest` levels left, its own included.
   * `shared` marks the top-level indices whose subtrees all address spaces share. `ok(home, i, w)`
   * says that the table routines may leave `w` at index `i` of a table that hangs at `home`. `strict` says
   * that the architecture demands break-before-make.
   */
  datatype Format<!W> = Format(
    levels: nat, zero: W, kind: (nat, W) -> Kind<W>, shared: W -> bool, ok: (Home<W>, W, W) -> bool, strict: bool)

  /** Where a table hangs: under one root, or (`None`) under every root. */
  datatype Home<W> = Home(root: Option<W>, prefix: Path<W>)

  function Read<W>(f: Format<W>, mem: Memory<W>, s: Slot<W>): W {
    if s in mem then mem[s] else f.zero
  }

  /** The all-zero word may stand in any table and means nothing there. */
  ghost predicate ZeroFits<W(!new)>(f: Format<W>) {
    AlwaysHole(f, f.zero) && forall h, i :: f.ok(h, i, f.zero)
  }

  /** The word means nothing at any level. */
  ghost predicate AlwaysHole<W(!new)>(f: Format<W>, w: W) {
    forall rest :: f.kind(rest, w) == Hole
  }

  /** A virtual address as the table indices the walk consumes. */
  type Path<W> = seq<W>

  /** `rest` is 1 when the walk ended at a 4 KiB page and 2 at a 2 MiB one. */
  datatype Outcome<W> = Fault | Hit(rest: nat, slot: Slot<W>, word: W)

  ghost function Walk<W(!new)>(f: Format<W>, mem: Memory<W>, table: W, path: Path<W>): (o: Outcome<W>)
    ensures o.Hit? ==> 1 <= o.rest <= |path| && o.slot.index == path[|path| - o.rest] && o.word == Read(f, mem, o.slot)
    decreases |path|
  {
    if path == [] then Fault
    else
      var s := Slot(table, path[0]);
      match f.kind(|path|, Read(f, mem, s))
      case Hole => Fault
      case Leaf => Hit(|path|, s, Read(f, mem, s))
      case Table(next) => Walk(f, mem, next, path[1..])
  }

  /** The indices a walk has consumed when it hits with `rest` levels left. */
  ghost function Consumed<W(!new)>(path: Path<W>, rest: nat): Path<W>
    requires 1 <= rest <= |path|
  {
    path[..|path| - rest + 1]
  }

  /** The walk reads slot `s`. */
  ghost predicate Visits<W(!new)>(f: Format<W>, mem: Memory<W>, table: W, path: Path<W>, s: Slot<W>)
    decreases |path|
  {
    path != [] &&
    (s == Slot(table, path[0]) ||
     match f.kind(|path|, Read(f, mem, Slot(table, path[0])))
     case Table(next) => Visits(f, mem, next, path[1..], s)
     case _ => false)
  }

  /** The two memories can differ in slot `s` only. */
  ghost predicate AgreeOff<W(!new)>(f: Format<W>, m: Memory<W>, n: Memory<W>, s: Slot<W>) {
    forall q :: q != s ==> Read(f, m, q) == Read(f, n, q)
  }

  /** A walk that does not read `s` is the same in memories that differ only there. */
  lemma {:induction false} WalkFrame<W(!new)>(f: Format<W>, m: Memory<W>, n: Memory<W>, s: Slot<W>, table: W, path: Path<W>)
    requires AgreeOff(f, m, n, s)
    requires !Visits(f, m, table, path, s)
    ensures Walk(f, n, table, path) == Walk(f, m, table, path)
    ensures forall q :: Visits(f, n, table, path, q) <==> Visits(f, m, table, path, q)
    decreases |path|
  {
    if path != [] {
      var first := Slot(table, path[0]);
      assert Read(f, n, first) == Read(f, m, first);
      match f.kind(|path|, Read(f, m, first))
      case Table(next) => WalkFrame(f, m, n, s, next, path[1..]);
      case _ =>
    }
  }

  lemma {:induction false} WalkSame<W(!new)>(f: Format<W>, m: Memory<W>, n: Memory<W>, table: W, path: Path<W>)
    requires forall q :: Read(f, m, q) == Read(f, n, q)
    ensures Walk(f, n, table, path) == Walk(f, m, table, path)
    decreases |path|
  {
    if path != [] {
      assert Read(f, n, Slot(table, path[0])) == Read(f, m, Slot(table, path[0]));
      match f.kind(|path|, Read(f, m, Slot(table, path[0])))
      case Table(next) => WalkSame(f, m, n, next, path[1..]);
      case _ =>
    }
  }

  /** A hit depends on the consumed indices only. */
  lemma {:induction false} HitPrefix<W(!new)>(f: Format<W>, mem: Memory<W>, table: W, p: Path<W>, q: Path<W>)
    requires |p| == |q| && Walk(f, mem, table, p).Hit?
    requires Consumed(p, Walk(f, mem, table, p).rest) <= q
    ensures Walk(f, mem, table, q) == Walk(f, mem, table, p)
    decreases |p|
  {
    var rest := Walk(f, mem, table, p).rest;
    assert Consumed(p, rest)[0] == p[0];
    match f.kind(|p|, Read(f, mem, Slot(table, p[0])))
    case Table(next) =>
      assert Consumed(p[1..], rest) == Consumed(p, rest)[1..];
      HitPrefix(f, mem, next, p[1..], q[1..]);
    case _ =>
  }

  // ---- Ownership ----------------------------------------------------------

  ghost function Child<W(!new)>(f: Format<W>, h: Home<W>, i: W): Home<W> {
    if h.prefix == [] && f.shared(i) then Home(None, [i]) else Home(h.root, h.prefix + [i])
  }

  /** A table page, as a key. */
  datatype Frame<W> = Frame(base: W)

  /** The tables in use and where each hangs. */
  type Owners<W(==)> = map<Frame<W>, Home<W>>

  ghost predicate Owned<W(!new)>(own: Owners<W>, t: W) {
    Frame(t) in own
  }

  ghost function HomeOf<W(!new)>(own: Owners<W>, t: W): Home<W>
    requires Owned(own, t)
  {
    own[Frame(t)]
  }

  ghost function Depth<W(!new)>(own: Owners<W>, t: W): nat
    requires Owned(own, t)
  {
    |HomeOf(own, t).prefix|
  }

  ghost predicate ValidHome<W(!new)>(f: Format<W>, h: Home<W>) {
    |h.prefix| < f.levels
  }

  /** Every table is linked from one place only. */
  ghost predicate Unshared<W(!new)>(f: Format<W>, mem: Memory<W>, own: Owners<W>) {
    && (forall t :: Owned(own, t) ==> ValidHome(f, HomeOf(own, t)))
    && (forall t, i :: Owned(own, t) ==> Linked(f, mem, own, t, i))
  }

  ghost predicate Linked<W(!new)>(f: Format<W>, mem: Memory<W>, own: Owners<W>, t: W, i: W)
    requires Owned(own, t)
  {
    Depth(own, t) <= f.levels && f.ok(HomeOf(own, t), i, Read(f, mem, Slot(t, i))) &&
    match f.kind(f.levels - Depth(own, t), Read(f, mem, Slot(t, i)))
    case Table(next) => Owned(own, next) && HomeOf(own, next) == Child(f, HomeOf(own, t), i)
    case _ => true
  }

  ghost predicate IsRoot<W(!new)>(own: Owners<W>, r: W) {
    Owned(own, r) && HomeOf(own, r) == Home(Some(r), [])
  }

  /** One step of a walk from an owned table. */
  lemma StepHome<W(!new)>(f: Format<W>, mem: Memory<W>, own: Owners<W>, t: W, path: Path<W>, next: W)
    requires Unshared(f, mem, own) && Owned(own, t) && path != [] && |path| + Depth(own, t) == f.levels
    requires f.kind(|path|, Read(f, mem, Slot(t, path[0]))) == Table(next)
    ensures Owned(own, next) && HomeOf(own, next).prefix == HomeOf(own, t).prefix + [path[0]]
    ensures |path[1..]| + Depth(own, next) == f.levels
    ensures HomeOf(own, next).root == HomeOf(own, t).root || HomeOf(own, next).root == None
    ensures HomeOf(own, next).prefix + path[1..] == HomeOf(own, t).prefix + path
  {
    assert Linked(f, mem, own, t, path[0]);
    var h, x, rest := HomeOf(own, t).prefix, [path[0]], path[1..];
    assert HomeOf(own, next) == Child(f, HomeOf(own, t), path[0]);
    assert HomeOf(own, next).prefix == h + x;
    assert path == x + rest;
    assert (h + x) + rest == h + (x + rest);
  }

  /** A walk that reads a slot comes from the one place the slot's table hangs. */
  lemma {:induction false} VisitsHome<W(!new)>(f: Format<W>, mem: Memory<W>, own: Owners<W>, t: W, path: Path<W>, s: Slot<W>)
    requires Unshared(f, mem, own) && Owned(own, t)
    requires |path| + Depth(own, t) == f.levels
    requires Visits(f, mem, t, path, s)
    ensures Owned(own, s.table)
    ensures HomeOf(own, s.table).prefix + [s.index] <= HomeOf(own, t).prefix + path
    ensures Depth(own, t) <= Depth(own, s.table)
    ensures HomeOf(own, s.table).root == HomeOf(own, t).root || HomeOf(own, s.table).root == None
    decreases |path|
  {
    if s != Slot(t, path[0]) {
      var next := f.kind(|path|, Read(f, mem, Slot(t, path[0]))).next;
      StepHome(f, mem, own, t, path, next);
      VisitsHome(f, mem, own, next, path[1..], s);
    }
  }

  /** The table reached after following the first `n` indices. */
  ghost function Descend<W(!new)>(f: Format<W>, mem: Memory<W>, t: W, path: Path<W>, n: nat): Option<W>
    requires n <= |path|
    decreases n
  {
    if n == 0 then Some(t)
    else
      match f.kind(|path|, Read(f, mem, Slot(t, path[0])))
      case Table(next) => Descend(f, mem, next, path[1..], n - 1)
      case _ => None
  }

  lemma {:induction false} WalkDescend<W(!new)>(f: Format<W>, mem: Memory<W>, t: W, path: Path<W>, n: nat)
    requires n <= |path| && Descend(f, mem, t, path, n).Some?
    ensures Walk(f, mem, t, path) == Walk(f, mem, Descend(f, mem, t, path, n).value, path[n..])
    decreases n
  {
    if n > 0 {
      var next := f.kind(|path|, Read(f, mem, Slot(t, path[0]))).next;
      WalkDescend(f, mem, next, path[1..], n - 1);
      assert path[1..][n - 1..] == path[n..];
    } else {
      assert path[0..] == path;
    }
  }

  /** One more index. */
  lemma {:induction false} DescendOne<W(!new)>(f: Format<W>, mem: Memory<W>, t: W, path: Path<W>, n: nat, u: W)
    requires n < |path| && Descend(f, mem, t, path, n) == Some(u)
    ensures Descend(f, mem, t, path, n + 1) ==
            match f.kind(|path| - n, Read(f, mem, Slot(u, path[n]))) case Table(next) => Some(next) case _ => None
    decreases n
  {
    if n > 0 {
      var next := f.kind(|path|, Read(f, mem, Slot(t, path[0]))).next;
      DescendOne(f, mem, next, path[1..], n - 1, u);
    }
  }

  /** A descent ends in the table that hangs at the indices followed. */
  lemma {:induction false} DescendHome<W(!new)>(f: Format<W>, mem: Memory<W>, own: Owners<W>, t: W, path: Path<W>, k: nat)
    requires Unshared(f, mem, own) && Owned(own, t) && k <= |path| && |path| + Depth(own, t) == f.levels
    requires Descend(f, mem, t, path, k).Some?
    ensures var d := Descend(f, mem, t, path, k).value;
            && Owned(own, d) && HomeOf(own, d).prefix == HomeOf(own, t).prefix + path[..k] && (k == 0 ==> d == t)
            && (HomeOf(own, d).root == HomeOf(own, t).root || HomeOf(own, d).root == None)
    decreases k
  {
    if k > 0 {
      var next := f.kind(|path|, Read(f, mem, Slot(t, path[0]))).next;
      StepHome(f, mem, own, t, path, next);
      DescendHome(f, mem, own, next, path[1..], k - 1);
      assert path[..k] == [path[0]] + path[1..][..k - 1];
    }
  }

  /** Stores into tables `k` levels down or deeper do not change the first `k` levels of a descent. */
  lemma {:induction false} DescendFrame<W(!new)>(f: Format<W>, m: Memory<W>, n: Memory<W>, own: Owners<W>, s: Slot<W>, t: W, path: Path<W>, k: nat)
    requires Unshared(f, m, own) && Owned(own, t) && k <= |path| && |path| + Depth(own, t) == f.levels
    requires AgreeOff(f, m, n, s) && (Owned(own, s.table) ==> Depth(own, s.table) >= Depth(own, t) + k)
    ensures Descend(f, n, t, path, k) == Descend(f, m, t, path, k)
    decreases k
  {
    if k > 0 {
      assert Read(f, n, Slot(t, path[0])) == Read(f, m, Slot(t, path[0]));
      match f.kind(|path|, Read(f, m, Slot(t, path[0])))
      case Table(next) =>
        StepHome(f, m, own, t, path, next);
        DescendFrame(f, m, n, own, s, next, path[1..], k - 1);
      case _ =>
    }
  }

  /** A slot without its low bit ends every walk that reads it. */
  lemma {:induction false} HoleFaults<W(!new)>(f: Format<W>, mem: Memory<W>, t: W, path: Path<W>, s: Slot<W>)
    requires AlwaysHole(f, Read(f, mem, s)) && Visits(f, mem, t, path, s)
    ensures Walk(f, mem, t, path) == Fault
    decreases |path|
  {
    if s != Slot(t, path[0]) {
      HoleFaults(f, mem, f.kind(|path|, Read(f, mem, Slot(t, path[0]))).next, path[1..], s);
    }
  }

  /** `p` lies under slot `s`. */
  ghost predicate Under<W(!new)>(own: Owners<W>, s: Slot<W>, r: W, p: Path<W>) {
    && Owned(own, s.table) && HomeOf(own, s.table).prefix + [s.index] <= p
    && (HomeOf(own, s.table).root == None || HomeOf(own, s.table).root == Some(r))
  }

  /** A store changes only the walks that lie under its slot. */
  lemma StoreFrame<W(!new)>(f: Format<W>, m: Memory<W>, n: Memory<W>, own: Owners<W>, s: Slot<W>, r: W, p: Path<W>)
    requires Unshared(f, m, own) && IsRoot(own, r) && |p| == f.levels && AgreeOff(f, m, n, s)
    requires !Under(own, s, r, p)
    ensures Walk(f, n, r, p) == Walk(f, m, r, p)
    ensures !Visits(f, m, r, p, s)
  {
    if Visits(f, m, r, p, s) {
      VisitsHome(f, m, own, r, p, s);
    }
    WalkFrame(f, m, n, s, r, p);
  }

  lemma {:induction false} DescendVisits<W(!new)>(f: Format<W>, mem: Memory<W>, t: W, path: Path<W>, k: nat, u: W)
    requires k < |path| && Descend(f, mem, t, path, k) == Some(u)
    ensures Visits(f, mem, t, path, Slot(u, path[k]))
    decreases k
  {
    if k > 0 {
      DescendVisits(f, mem, f.kind(|path|, Read(f, mem, Slot(t, path[0]))).next, path[1..], k - 1, u);
    }
  }

  lemma {:induction false} DescendPrefix<W(!new)>(f: Format<W>, mem: Memory<W>, t: W, p: Path<W>, q: Path<W>, k: nat)
    requires |p| == |q| && k <= |p| && p[..k] == q[..k]
    ensures Descend(f, mem, t, p, k) == Descend(f, mem, t, q, k)
    decreases k
  {
    if k > 0 {
      assert p[0] == p[..k][0] && q[0] == q[..k][0];
      match f.kind(|p|, Read(f, mem, Slot(t, p[0])))
      case Table(next) =>
        assert p[1..][..k - 1] == p[..k][1..] && q[1..][..k - 1] == q[..k][1..];
        DescendPrefix(f, mem, next, p[1..], q[1..], k - 1);
      case _ =>
    }
  }

  /** A walk that reads a slot descends to the slot's table. */
  lemma {:induction false} VisitsDescend<W(!new)>(f: Format<W>, mem: Memory<W>, own: Owners<W>, t: W, path: Path<W>, s: Slot<W>)
    requires Unshared(f, mem, own) && Owned(own, t) && |path| + Depth(own, t) == f.levels
    requires Visits(f, mem, t, path, s)
    ensures Owned(own, s.table) && Depth(own, t) <= Depth(own, s.table) < f.levels
    ensures var k := Depth(own, s.table) - Depth(own, t);
            path[k] == s.index && Descend(f, mem, t, path, k) == Some(s.table)
    decreases |path|
  {
    VisitsHome(f, mem, own, t, path, s);
    var k := Depth(own, s.table) - Depth(own, t);
    if k == 0 {
      if s != Slot(t, path[0]) {
        var next := f.kind(|path|, Read(f, mem, Slot(t, path[0]))).next;
        StepHome(f, mem, own, t, path, next);
        VisitsHome(f, mem, own, next, path[1..], s);
      }
    } else {
      var next := f.kind(|path|, Read(f, mem, Slot(t, path[0]))).next;
      StepHome(f, mem, own, t, path, next);
      VisitsDescend(f, mem, own, next, path[1..], s);
    }
  }

  /** Before and after a store, a walk that reads the slot is the walk from the slot's table. */
  lemma StoreEffect<W(!new)>(f: Format<W>, m: Memory<W>, n: Memory<W>, own: Owners<W>, s: Slot<W>, r: W, p: Path<W>)
    requires Unshared(f, m, own) && IsRoot(own, r) && |p| == f.levels && AgreeOff(f, m, n, s)
    requires Visits(f, m, r, p, s)
    ensures Owned(own, s.table) && Depth(own, s.table) < f.levels
    ensures var k := Depth(own, s.table);
            p[k] == s.index && Walk(f, m, r, p) == Walk(f, m, s.table, p[k..]) && Walk(f, n, r, p) == Walk(f, n, s.table, p[k..])
  {
    VisitsDescend(f, m, own, r, p, s);
    var k := Depth(own, s.table);
    DescendFrame(f, m, n, own, s, r, p, k);
    WalkDescend(f, m, r, p, k);
    WalkDescend(f, n, r, p, k);
  }

  ghost predicate Blank<W(!new)>(f: Format<W>, mem: Memory<W>, t: W) {
    forall i :: Read(f, mem, Slot(t, i)) == f.zero
  }

  /** Hanging a blank table into a hole keeps the tables unshared and every walk as it was. */
  lemma LinkTable<W(!new)>(f: Format<W>, m: Memory<W>, own: Owners<W>, s: Slot<W>, w: W, next: W)
    requires Unshared(f, m, own) && Owned(own, s.table) && AlwaysHole(f, Read(f, m, s))
    requires Depth(own, s.table) + 1 < f.levels && !Owned(own, next) && Blank(f, m, next) && ZeroFits(f)
    requires f.kind(f.levels - Depth(own, s.table), w) == Table(next) && f.ok(HomeOf(own, s.table), s.index, w)
    ensures Unshared(f, m[s := w], own[Frame(next) := Child(f, HomeOf(own, s.table), s.index)])
    ensures forall r, p :: IsRoot(own, r) && |p| == f.levels ==>
              Walk(f, m[s := w], r, p) == Walk(f, m, r, p)
  {
    var n := m[s := w];
    LinkUnshared(f, m, own, s, w, next);
    forall r, p | IsRoot(own, r) && |p| == f.levels
      ensures Walk(f, n, r, p) == Walk(f, m, r, p)
    {
      LinkWalk(f, m, own, s, w, next, r, p);
    }
  }

  lemma LinkWalk<W(!new)>(f: Format<W>, m: Memory<W>, own: Owners<W>, s: Slot<W>, w: W, next: W, r: W, p: Path<W>)
    requires Unshared(f, m, own) && Owned(own, s.table) && AlwaysHole(f, Read(f, m, s))
    requires Depth(own, s.table) + 1 < f.levels && !Owned(own, next) && Blank(f, m, next) && ZeroFits(f)
    requires f.kind(f.levels - Depth(own, s.table), w) == Table(next)
    requires IsRoot(own, r) && |p| == f.levels
    ensures Walk(f, m[s := w], r, p) == Walk(f, m, r, p)
  {
    var n := m[s := w];
    if Visits(f, m, r, p, s) {
      HoleFaults(f, m, r, p, s);
      StoreEffect(f, m, n, own, s, r, p);
      var k := Depth(own, s.table);
      assert p[k..][1..] == p[k + 1..];
      assert Read(f, n, Slot(next, p[k + 1])) == f.zero;
    } else {
      WalkFrame(f, m, n, s, r, p);
    }
  }

  lemma LinkUnshared<W(!new)>(f: Format<W>, m: Memory<W>, own: Owners<W>, s: Slot<W>, w: W, next: W)
    requires Unshared(f, m, own) && Owned(own, s.table)
    requires Depth(own, s.table) + 1 < f.levels && !Owned(own, next)
    requires forall i :: var v := Read(f, m, Slot(next, i));
      !f.kind(f.levels - Depth(own, s.table) - 1, v).Table? && f.ok(Child(f, HomeOf(own, s.table), s.index), i, v)
    requires f.kind(f.levels - Depth(own, s.table), w) == Table(next) && f.ok(HomeOf(own, s.table), s.index, w)
    ensures Unshared(f, m[s := w], own[Frame(next) := Child(f, HomeOf(own, s.table), s.index)])
  {
    var n, own' := m[s := w], own[Frame(next) := Child(f, HomeOf(own, s.table), s.index)];
    assert ValidHome(f, HomeOf(own, s.table));
    assert ValidHome(f, Child(f, HomeOf(own, s.table), s.index));
    forall t | Owned(own', t)
      ensures ValidHome(f, HomeOf(own', t))
    {
      assert t == next || (Owned(own, t) && HomeOf(own', t) == HomeOf(own, t));
    }
    forall t, i | Owned(own', t)
      ensures Linked(f, n, own', t, i)
    {
      if t == next {
        assert Read(f, n, Slot(t, i)) == Read(f, m, Slot(next, i));
      } else if Slot(t, i) != s {
        assert HomeOf(own', t) == HomeOf(own, t);
        assert ValidHome(f, HomeOf(own, t)) && Linked(f, m, own, t, i);
        assert Read(f, n, Slot(t, i)) == Read(f, m, Slot(t, i));
      }
    }
  }

  /** A store that is not a table link, over an entry that is none, keeps the tables unshared. */
  lemma LeafUnshared<W(!new)>(f: Format<W>, m: Memory<W>, own: Owners<W>, s: Slot<W>, w: W)
    requires Unshared(f, m, own)
    requires Owned(own, s.table) ==>
      !f.kind(f.levels - Depth(own, s.table), w).Table? && f.ok(HomeOf(own, s.table), s.index, w)
    ensures Unshared(f, m[s := w], own)
  {
    var n := m[s := w];
    forall t, i | Owned(own, t)
      ensures Linked(f, n, own, t, i)
    {
      assert Linked(f, m, own, t, i);
    }
  }

  /** The outcome of a walk that reads word `w` in slot `s` with `rest` levels left. */
  ghost function LeafOutcome<W(!new)>(f: Format<W>, rest: nat, s: Slot<W>, w: W): Outcome<W> {
    if f.kind(rest, w).Leaf? then Hit(rest, s, w) else Fault
  }

  // ---- Stores at the end of a path ----------------------------------------

  /** Where the table `k` levels down `path` hangs. */
  ghost function PlaceOf<W(!new)>(f: Format<W>, root: W, path: Path<W>, k: nat): Home<W>
    requires k <= |path|
  {
    if k > 0 && f.shared(path[0]) then Home(None, path[..k]) else Home(Some(root), path[..k])
  }

  /** `t` is the table `k` levels down `path` in address space `root`. */
  ghost predicate Reaches<W(!new)>(f: Format<W>, mem: Memory<W>, own: Owners<W>, root: W, path: Path<W>, k: nat, t: W) {
    && IsRoot(own, root) && |path| == f.levels && k < f.levels
    && Descend(f, mem, root, path, k) == Some(t) && Owned(own, t) && HomeOf(own, t) == PlaceOf(f, root, path, k)
  }

  lemma ReachNext<W(!new)>(f: Format<W>, mem: Memory<W>, own: Owners<W>, root: W, path: Path<W>, k: nat, t: W, next: W)
    requires Unshared(f, mem, own) && Reaches(f, mem, own, root, path, k, t) && k + 1 < f.levels
    requires f.kind(f.levels - k, Read(f, mem, Slot(t, path[k]))) == Table(next)
    ensures Reaches(f, mem, own, root, path, k + 1, next)
  {
    DescendOne(f, mem, root, path, k, t);
    assert Linked(f, mem, own, t, path[k]);
    assert path[..k + 1] == path[..k] + [path[k]];
  }

  /** Tables less than `d` levels down are as they were. */
  ghost predicate KeptAbove<W(!new)>(f: Format<W>, own: Owners<W>, m: Memory<W>, n: Memory<W>, d: nat) {
    forall q: Slot<W> :: Owned(own, q.table) && Depth(own, q.table) < d ==> Read(f, n, q) == Read(f, m, q)
  }

  lemma {:induction false} DescendKept<W(!new)>(f: Format<W>, m: Memory<W>, n: Memory<W>, own: Owners<W>, t: W, path: Path<W>, k: nat)
    requires Unshared(f, m, own) && Owned(own, t) && k <= |path| && |path| + Depth(own, t) == f.levels
    requires KeptAbove(f, own, m, n, Depth(own, t) + k)
    ensures Descend(f, n, t, path, k) == Descend(f, m, t, path, k)
    decreases k
  {
    if k > 0 {
      assert Read(f, n, Slot(t, path[0])) == Read(f, m, Slot(t, path[0]));
      match f.kind(|path|, Read(f, m, Slot(t, path[0])))
      case Table(next) =>
        StepHome(f, m, own, t, path, next);
        DescendKept(f, m, n, own, next, path[1..], k - 1);
      case _ =>
    }
  }

  /** How many tables must be made before `path` has a last-level entry; a large page is taken for the last table. */
  ghost function Missing<W(!new)>(f: Format<W>, mem: Memory<W>, t: W, path: Path<W>): nat
    decreases |path|
  {
    if |path| <= 1 then 0
    else
      match f.kind(|path|, Read(f, mem, Slot(t, path[0])))
      case Hole => |path| - 1
      case Leaf => 0
      case Table(next) => Missing(f, mem, next, path[1..])
  }

  /** All address spaces have the same shared entries. */
  ghost predicate Shares<W(!new)>(f: Format<W>, mem: Memory<W>, spaces: set<W>) {
    forall r, q, i :: r in spaces && q in spaces && f.shared(i) ==> Read(f, mem, Slot(r, i)) == Read(f, mem, Slot(q, i))
  }

  /** What `root` maps at `path`, `r` maps too: it is the same address space, or the address is shared. */
  ghost predicate Sees<W(!new)>(f: Format<W>, root: W, path: Path<W>, r: W) {
    r == root || (path != [] && f.shared(path[0]))
  }

  lemma SeesDescend<W(!new)>(f: Format<W>, mem: Memory<W>, own: Owners<W>, spaces: set<W>, root: W, path: Path<W>, k: nat, t: W, r: W)
    requires Unshared(f, mem, own) && Reaches(f, mem, own, root, path, k, t) && k > 0 && IsRoot(own, r)
    requires f.shared(path[0]) ==> Shares(f, mem, spaces) && r in spaces && root in spaces
    ensures Descend(f, mem, r, path, k) == Some(t) <==> Sees(f, root, path, r)
  {
    if f.shared(path[0]) {
      assert Read(f, mem, Slot(r, path[0])) == Read(f, mem, Slot(root, path[0]));
    } else if Descend(f, mem, r, path, k).Some? {
      DescendHome(f, mem, own, r, path, k);
    }
  }

  /** A walk that comes by the slot at the end of `path` goes on from its table, before and after a store. */
  lemma StoreHits<W(!new)>(f: Format<W>, m: Memory<W>, n: Memory<W>, own: Owners<W>, s: Slot<W>, root: W, path: Path<W>, k: nat, r: W, p: Path<W>)
    requires Unshared(f, m, own) && Reaches(f, m, own, root, path, k, s.table) && path[k] == s.index && AgreeOff(f, m, n, s)
    requires IsRoot(own, r) && |p| == f.levels
    requires Descend(f, m, r, path, k) == Some(s.table) && path[..k + 1] <= p
    ensures p[k] == s.index && Walk(f, m, r, p) == Walk(f, m, s.table, p[k..]) && Walk(f, n, r, p) == Walk(f, n, s.table, p[k..])
  {
    assert path[..k + 1] == path[..k] + [s.index];
    assert p[..k] == path[..k] && p[k] == path[k];
    DescendPrefix(f, m, r, path, p, k);
    DescendVisits(f, m, r, p, k, s.table);
    StoreEffect(f, m, n, own, s, r, p);
  }

  /** Any other walk never reads the slot. */
  lemma StoreMisses<W(!new)>(f: Format<W>, m: Memory<W>, n: Memory<W>, own: Owners<W>, s: Slot<W>, root: W, path: Path<W>, k: nat, r: W, p: Path<W>)
    requires Unshared(f, m, own) && Reaches(f, m, own, root, path, k, s.table) && path[k] == s.index && AgreeOff(f, m, n, s)
    requires IsRoot(own, r) && |p| == f.levels
    requires !(Descend(f, m, r, path, k) == Some(s.table) && path[..k + 1] <= p)
    ensures Walk(f, n, r, p) == Walk(f, m, r, p) && !Visits(f, m, r, p, s)
  {
    if Visits(f, m, r, p, s) {
      VisitsPath(f, m, own, s, path, k, r, p);
    }
    WalkFrame(f, m, n, s, r, p);
  }

  lemma VisitsPath<W(!new)>(f: Format<W>, mem: Memory<W>, own: Owners<W>, s: Slot<W>, path: Path<W>, k: nat, r: W, p: Path<W>)
    requires Unshared(f, mem, own) && IsRoot(own, r) && |p| == f.levels == |path| && Visits(f, mem, r, p, s)
    requires Owned(own, s.table) && k < |path| && HomeOf(own, s.table).prefix == path[..k] && path[k] == s.index
    ensures Descend(f, mem, r, path, k) == Some(s.table) && path[..k + 1] <= p
  {
    VisitsDescend(f, mem, own, r, p, s);
    VisitsHome(f, mem, own, r, p, s);
    assert path[..k + 1] == path[..k] + [s.index];
    assert p[..k] == path[..k];
    DescendPrefix(f, mem, r, path, p, k);
  }

  /**
   * Storing a leaf or a hole there redirects the addresses under that slot and no others, in
   * the roots that see it and no others.
   */
  lemma LeafStore<W(!new)>(f: Format<W>, m: Memory<W>, own: Owners<W>, spaces: set<W>, s: Slot<W>, w: W, root: W, path: Path<W>, k: nat, r: W, p: Path<W>)
    requires Unshared(f, m, own) && Reaches(f, m, own, root, path, k, s.table) && path[k] == s.index && k > 0
    requires f.shared(path[0]) ==> Shares(f, m, spaces) && r in spaces && root in spaces
    requires !f.kind(f.levels - k, w).Table? && IsRoot(own, r) && |p| == f.levels
    ensures Walk(f, m[s := w], r, p) ==
      if Sees(f, root, path, r) && path[..k + 1] <= p then LeafOutcome(f, f.levels - k, s, w) else Walk(f, m, r, p)
  {
    var n := m[s := w];
    SeesDescend(f, m, own, spaces, root, path, k, s.table, r);
    if Sees(f, root, path, r) && path[..k + 1] <= p {
      StoreHits(f, m, n, own, s, root, path, k, r, p);
    } else {
      StoreMisses(f, m, n, own, s, root, path, k, r, p);
    }
  }

  /** The walk of `path` from `root` passes through `table`, `level` levels down. */
  ghost predicate OnTheWay<W(!new)>(f: Format<W>, mem: Memory<W>, own: Owners<W>, root: W, path: Path<W>, table: W, level: nat) {
    && |path| == f.levels && level < f.levels && Owned(own, table) && Depth(own, table) == level
    && Walk(f, mem, root, path) == Walk(f, mem, table, path[level..])
  }

  /** One step of a walk done in a loop. */
  lemma WayStep<W(!new)>(f: Format<W>, mem: Memory<W>, own: Owners<W>, root: W, path: Path<W>, table: W, level: nat)
    requires Unshared(f, mem, own) && OnTheWay(f, mem, own, root, path, table, level)
    ensures var s := Slot(table, path[level]);
      match f.kind(f.levels - level, Read(f, mem, s))
      case Hole => Walk(f, mem, root, path) == Fault
      case Leaf => Walk(f, mem, root, path) == Hit(f.levels - level, s, Read(f, mem, s))
      case Table(next) => level + 1 < f.levels ==> OnTheWay(f, mem, own, root, path, next, level + 1)
    ensures f.ok(HomeOf(own, table), path[level], Read(f, mem, Slot(table, path[level])))
  {
    assert Linked(f, mem, own, table, path[level]);
    assert path[level..][1..] == path[level + 1..];
  }

  /** `u` has the shared entries of root `t` and no others. */
  ghost predicate RootCopy<W(!new)>(f: Format<W>, mem: Memory<W>, t: W, u: W) {
    forall i ::
      && RootEntryOk(f, u, i, Read(f, mem, Slot(u, i)))
      && if f.shared(i) then Read(f, mem, Slot(u, i)) == Read(f, mem, Slot(t, i)) else AlwaysHole(f, Read(f, mem, Slot(u, i)))
  }

  ghost predicate RootEntryOk<W(!new)>(f: Format<W>, u: W, i: W, w: W) {
    f.ok(Home(Some(u), []), i, w)
  }

  /** Through a copy of `t`, the shared part is translated as through `t` and nothing else is mapped. */
  lemma RootCopyWalk<W(!new)>(f: Format<W>, mem: Memory<W>, t: W, u: W, path: Path<W>)
    requires RootCopy(f, mem, t, u) && path != []
    requires f.shared(path[0]) ==> !f.kind(|path|, Read(f, mem, Slot(t, path[0]))).Leaf?
    ensures Walk(f, mem, u, path) == if f.shared(path[0]) then Walk(f, mem, t, path) else Fault
  {
    assert f.shared(path[0]) ==> Read(f, mem, Slot(u, path[0])) == Read(f, mem, Slot(t, path[0]));
  }

  /** The copy is a root beside the original. */
  lemma RootCopyUnshared<W(!new)>(f: Format<W>, mem: Memory<W>, own: Owners<W>, t: W, u: W)
    requires Unshared(f, mem, own) && IsRoot(own, t) && !Owned(own, u) && RootCopy(f, mem, t, u)
    ensures Unshared(f, mem, own[Frame(u) := Home(Some(u), [])])
  {
    var own' := own[Frame(u) := Home(Some(u), [])];
    assert ValidHome(f, HomeOf(own, t));
    forall x | Owned(own', x)
      ensures ValidHome(f, HomeOf(own', x))
    {
      assert x == u || (Owned(own, x) && HomeOf(own', x) == HomeOf(own, x));
    }
    forall x, i | Owned(own', x)
      ensures Linked(f, mem, own', x, i)
    {
      assert Linked(f, mem, own, if x == u then t else x, i);
      if x == u {
        assert RootEntryOk(f, u, i, Read(f, mem, Slot(u, i)));
      }
    }
  }
}
