/**
 * Many CPUs with translation caches over shared page tables.
 *
 * One CPU at a time holds the mapping lock and works through a list of table stores and
 * flushes. Between any two of its steps every CPU may cache any translation its own root
 * gives, evict anything, or carry out a flush it owes.
 */
module Tlb {
  import opened Options
  import opened Radix

  type Cpu = nat

  /** A cached translation: `prefix` has one index per level, so it also gives the page size. */
  datatype Entry<W> = Entry(prefix: Path<W>, slot: Slot<W>, word: W)

  datatype Cached<W> = Cached(cpu: Cpu, entry: Entry<W>)

  datatype Scope<W> = Everything | Page(path: Path<W>)

  /** `Flush` reaches the CPUs on root `only`, or every CPU. */
  datatype Event<W> = Store(slot: Slot<W>, word: W) | Flush(scope: Scope<W>, only: Option<W>)

  ghost predicate InScope<W(!new)>(scope: Scope<W>, prefix: Path<W>) {
    scope.Everything? || prefix <= scope.path
  }

  /** Some translation of some address space is read through slot `s`. */
  ghost predicate Live<W(!new)>(f: Format<W>, spaces: set<W>, mem: Memory<W>, s: Slot<W>) {
    exists r, p :: r in spaces && IsAddress(f, p) && Walk(f, mem, r, p).Hit? && Visits(f, mem, r, p, s)
  }

  ghost predicate IsAddress<W(!new)>(f: Format<W>, p: Path<W>) {
    |p| == f.levels
  }

  /** Flush `e` removes every translation read through slot `s`. */
  ghost predicate Covers<W(!new)>(f: Format<W>, spaces: set<W>, mem: Memory<W>, s: Slot<W>, e: Event<W>)
    requires e.Flush?
  {
    forall r, p :: r in spaces && IsAddress(f, p) && Walk(f, mem, r, p).Hit? && Visits(f, mem, r, p, s) ==>
      && (e.only == None || e.only == Some(r))
      && InScope(e.scope, Consumed(p, Walk(f, mem, r, p).rest))
  }

  ghost function After<W(!new)>(mem: Memory<W>, events: seq<Event<W>>): Memory<W>
    decreases |events|
  {
    if events == [] then mem
    else if events[0].Store? then After(mem[events[0].slot := events[0].word], events[1..])
    else After(mem, events[1..])
  }

  /**
   * A store over a live slot is followed by a flush that covers the slot. Where the
   * architecture is strict the store must also leave the slot without translations (break
   * before make).
   */
  ghost predicate Disciplined<W(!new)>(f: Format<W>, spaces: set<W>, mem: Memory<W>, events: seq<Event<W>>)
    decreases |events|
  {
    events == [] ||
    match events[0]
    case Flush(_, _) => Disciplined(f, spaces, mem, events[1..])
    case Store(s, w) =>
      var next := mem[s := w];
      if !Live(f, spaces, mem, s) then Disciplined(f, spaces, next, events[1..])
      else
        && (f.strict ==> !Live(f, spaces, next, s))
        && |events| > 1 && events[1].Flush? && Covers(f, spaces, mem, s, events[1])
        && Disciplined(f, spaces, next, events[2..])
  }

  /** The section of a CPU on `root`: it flushes for that root or for all, and page by page where a flush is an interrupt. */
  ghost predicate OwnLog<W(!new)>(f: Format<W>, root: W, events: seq<Event<W>>) {
    forall i :: 0 <= i < |events| && events[i].Flush? ==>
      (events[i].only == None || events[i].only == Some(root)) && (f.strict || events[i].scope.Page?)
  }

  lemma {:induction false} DisciplinedConcat<W(!new)>(f: Format<W>, spaces: set<W>, mem: Memory<W>, d: seq<Event<W>>, e: seq<Event<W>>)
    requires Disciplined(f, spaces, mem, d) && Disciplined(f, spaces, After(mem, d), e)
    ensures Disciplined(f, spaces, mem, d + e)
    ensures After(mem, d + e) == After(After(mem, d), e)
    decreases |d|
  {
    if d == [] {
      assert d + e == e;
    } else {
      assert (d + e)[1..] == d[1..] + e;
      match d[0]
      case Flush(_, _) => DisciplinedConcat(f, spaces, mem, d[1..], e);
      case Store(s, w) =>
        if !Live(f, spaces, mem, s) {
          DisciplinedConcat(f, spaces, mem[s := w], d[1..], e);
        } else {
          assert d[1..][1..] == d[2..] && (d + e)[2..] == d[2..] + e && (d[1..] + e)[1..] == d[2..] + e;
          assert After(mem, d) == After(mem[s := w], d[1..]) == After(mem[s := w], d[2..]);
          DisciplinedConcat(f, spaces, mem[s := w], d[2..], e);
        }
    }
  }

  /** The address spaces in `spaces` are translated alike by both memories. */
  ghost predicate SameWalks<W(!new)>(f: Format<W>, spaces: set<W>, m: Memory<W>, n: Memory<W>) {
    forall r, p :: r in spaces && IsAddress(f, p) ==> Walk(f, n, r, p) == Walk(f, m, r, p)
  }

  lemma SameWalksTrans<W(!new)>(f: Format<W>, spaces: set<W>, l: Memory<W>, m: Memory<W>, n: Memory<W>)
    requires SameWalks(f, spaces, l, m) && SameWalks(f, spaces, m, n)
    ensures SameWalks(f, spaces, l, n)
  {
  }

  ghost predicate Roots<W(!new)>(own: Owners<W>, spaces: set<W>) {
    forall r :: r in spaces ==> IsRoot(own, r)
  }

  /** A hole is never live. */
  lemma HoleIsQuiet<W(!new)>(f: Format<W>, spaces: set<W>, mem: Memory<W>, s: Slot<W>)
    requires AlwaysHole(f, Read(f, mem, s))
    ensures !Live(f, spaces, mem, s)
  {
    forall r, p | r in spaces && IsAddress(f, p) && Visits(f, mem, r, p, s)
      ensures !Walk(f, mem, r, p).Hit?
    {
      HoleFaults(f, mem, r, p, s);
    }
  }

  /** A table nobody owns can be written freely. */
  lemma StoreOutside<W(!new)>(f: Format<W>, spaces: set<W>, own: Owners<W>, mem: Memory<W>, s: Slot<W>, w: W)
    requires Unshared(f, mem, own) && !Owned(own, s.table) && Roots(own, spaces)
    ensures Unshared(f, mem[s := w], own) && SameWalks(f, spaces, mem, mem[s := w]) && !Live(f, spaces, mem, s)
  {
    var n := mem[s := w];
    LeafUnshared(f, mem, own, s, w);
    forall r, p | r in spaces && IsAddress(f, p)
      ensures Walk(f, n, r, p) == Walk(f, mem, r, p) && !Visits(f, mem, r, p, s)
    {
      StoreFrame(f, mem, n, own, s, r, p);
    }
  }

  /** Flushing `path` covers the slot at its end, unless a table hangs there. */
  lemma PathCovers<W(!new)>(f: Format<W>, spaces: set<W>, own: Owners<W>, mem: Memory<W>, root: W, path: Path<W>, k: nat, t: W, only: Option<W>)
    requires Unshared(f, mem, own) && Roots(own, spaces) && Reaches(f, mem, own, root, path, k, t) && k > 0
    requires !f.kind(f.levels - k, Read(f, mem, Slot(t, path[k]))).Table?
    requires only == None || (only == Some(root) && !f.shared(path[0]))
    ensures Covers(f, spaces, mem, Slot(t, path[k]), Flush(Page(path), only))
  {
    var s := Slot(t, path[k]);
    forall r, p | r in spaces && IsAddress(f, p) && Walk(f, mem, r, p).Hit? && Visits(f, mem, r, p, s)
      ensures (only == None || only == Some(r)) && InScope(Page(path), Consumed(p, Walk(f, mem, r, p).rest))
    {
      VisitsHome(f, mem, own, r, p, s);
      EndOfPath(f, own, mem, path, k, s, r, p);
    }
  }

  /** A translation read through the slot at the end of `path` covers `path`. */
  lemma EndOfPath<W(!new)>(f: Format<W>, own: Owners<W>, mem: Memory<W>, path: Path<W>, k: nat, s: Slot<W>, r: W, p: Path<W>)
    requires Unshared(f, mem, own) && IsRoot(own, r) && IsAddress(f, p) && IsAddress(f, path)
    requires Owned(own, s.table) && k < |path| && HomeOf(own, s.table).prefix == path[..k] && path[k] == s.index
    requires !f.kind(f.levels - k, Read(f, mem, s)).Table? && Visits(f, mem, r, p, s) && Walk(f, mem, r, p).Hit?
    ensures Consumed(p, Walk(f, mem, r, p).rest) <= path
  {
    VisitsPath(f, mem, own, s, path, k, r, p);
    EndsHere(f, own, mem, k, s, r, p);
    assert Consumed(p, f.levels - k) == path[..k + 1];
  }

  lemma EndsHere<W(!new)>(f: Format<W>, own: Owners<W>, mem: Memory<W>, k: nat, s: Slot<W>, r: W, p: Path<W>)
    requires Unshared(f, mem, own) && IsRoot(own, r) && IsAddress(f, p)
    requires Owned(own, s.table) && Depth(own, s.table) == k < |p|
    requires !f.kind(f.levels - k, Read(f, mem, s)).Table? && Visits(f, mem, r, p, s) && Walk(f, mem, r, p).Hit?
    ensures Walk(f, mem, r, p).rest == f.levels - k
  {
    StoreEffect(f, mem, mem, own, s, r, p);
  }

  /** Adding a quiet store to a disciplined log. */
  lemma LogStore<W(!new)>(f: Format<W>, spaces: set<W>, start: Memory<W>, log: seq<Event<W>>, s: Slot<W>, w: W)
    requires Disciplined(f, spaces, start, log) && !Live(f, spaces, After(start, log), s)
    ensures Disciplined(f, spaces, start, log + [Store(s, w)])
    ensures After(start, log + [Store(s, w)]) == After(start, log)[s := w]
  {
    var e: seq<Event<W>> := [Store(s, w)];
    assert e[1..] == [];
    DisciplinedConcat(f, spaces, start, log, e);
  }

  /** Adding a flush to a disciplined log. */
  lemma LogFlush<W(!new)>(f: Format<W>, spaces: set<W>, start: Memory<W>, log: seq<Event<W>>, flush: Event<W>)
    requires Disciplined(f, spaces, start, log) && flush.Flush?
    ensures Disciplined(f, spaces, start, log + [flush])
    ensures After(start, log + [flush]) == After(start, log)
  {
    var e := [flush];
    assert e[1..] == [];
    DisciplinedConcat(f, spaces, start, log, e);
  }

  /** Adding a store and the flush that covers its slot. */
  lemma LogStoreFlush<W(!new)>(f: Format<W>, spaces: set<W>, start: Memory<W>, log: seq<Event<W>>, s: Slot<W>, w: W,
                               flush: Event<W>)
    requires Disciplined(f, spaces, start, log) && flush.Flush?
    requires var mem := After(start, log); Covers(f, spaces, mem, s, flush) && (f.strict ==> !Live(f, spaces, mem[s := w], s))
    ensures Disciplined(f, spaces, start, log + [Store(s, w), flush])
    ensures After(start, log + [Store(s, w), flush]) == After(start, log)[s := w]
  {
    var e := [Store(s, w), flush];
    var next := After(start, log)[s := w];
    assert e[1..] == [flush] && e[1..][1..] == [] && e[2..] == [];
    assert After(next, e[1..]) == After(next, []) == next;
    DisciplinedConcat(f, spaces, start, log, e);
  }

  // ---- The machine --------------------------------------------------------

  /** History: table memory before the store whose flush is outstanding, and the slot stored. */
  datatype Before<W> = Before(mem: Memory<W>, slot: Slot<W>)

  datatype State<W(==)> = State(
    mem: Memory<W>,
    spaces: set<W>,            // roots a CPU may switch to
    active: map<Cpu, W>,       // hardware root of each running CPU
    tlb: set<Cached<W>>,
    todo: seq<Event<W>>,             // what the lock holder has still to do
    waiting: Option<set<Cpu>>,    // CPUs that owe the flush at the head of `todo`
    switching: Option<Cpu>,       // a CPU between its root switch and its local flush
    before: Option<Before<W>>)

  ghost predicate LockFree<W(!new)>(s: State<W>) {
    s.todo == [] && s.switching == None
  }

  datatype Step<W> =
    | Fill(cpu: Cpu, path: Path<W>)
    | Evict(cached: Cached<W>)
    | Begin(events: seq<Event<W>>)
    | DoStore
    | FlushStart
    | FlushOn(target: Cpu)
    | FlushDone
    | SwitchRoot(who: Cpu, root: W)
    | FlushLocal
    | SetSpaces(roots: set<W>)

  ghost function Targets<W(!new)>(s: State<W>, e: Event<W>): set<Cpu>
    requires e.Flush?
  {
    set c | c in s.active && (e.only == None || e.only == Some(s.active[c]))
  }

  ghost predicate Enabled<W(!new)>(f: Format<W>, s: State<W>, step: Step<W>) {
    match step
    case Fill(c, p) => c in s.active && IsAddress(f, p) && Walk(f, s.mem, s.active[c], p).Hit?
    case Evict(_) => true
    case Begin(events) => LockFree(s) && Disciplined(f, s.spaces, s.mem, events)
    case DoStore => s.todo != [] && s.todo[0].Store?
    case FlushStart => s.todo != [] && s.todo[0].Flush? && s.waiting == None
    case FlushOn(c) => s.todo != [] && s.todo[0].Flush? && s.waiting.Some? && c in s.waiting.value
    case FlushDone => s.todo != [] && s.todo[0].Flush? && s.waiting == Some({})
    case SwitchRoot(c, r) => LockFree(s) && c in s.active && r in s.spaces
    case FlushLocal => s.switching.Some?
    case SetSpaces(rs) => LockFree(s) && forall c :: c in s.active ==> s.active[c] in rs
  }

  ghost function Filled<W(!new)>(f: Format<W>, s: State<W>, c: Cpu, p: Path<W>): Cached<W>
    requires c in s.active && Walk(f, s.mem, s.active[c], p).Hit?
  {
    var h := Walk(f, s.mem, s.active[c], p);
    Cached(c, Entry(Consumed(p, h.rest), h.slot, h.word))
  }

  ghost function Take<W(!new)>(f: Format<W>, s: State<W>, step: Step<W>): State<W>
    requires Enabled(f, s, step)
  {
    match step
    case Fill(c, p) => s.(tlb := s.tlb + {Filled(f, s, c, p)})
    case Evict(x) => s.(tlb := s.tlb - {x})
    case Begin(events) => s.(todo := events)
    case DoStore =>
      var Store(slot, w) := s.todo[0];
      s.(mem := s.mem[slot := w], todo := s.todo[1..],
         before := if Live(f, s.spaces, s.mem, slot) then Some(Before(s.mem, slot)) else None)
    case FlushStart => s.(waiting := Some(Targets(s, s.todo[0])))
    case FlushOn(c) =>
      s.(tlb := (set x | x in s.tlb && !(x.cpu == c && InScope(s.todo[0].scope, x.entry.prefix))),
         waiting := Some(s.waiting.value - {c}))
    case FlushDone => s.(todo := s.todo[1..], waiting := None, before := None)
    case SwitchRoot(c, r) => s.(active := s.active[c := r], switching := Some(c))
    case FlushLocal => s.(tlb := (set x | x in s.tlb && x.cpu != s.switching.value), switching := None)
    case SetSpaces(rs) => s.(spaces := rs)
  }

  ghost predicate Run<W(!new)>(f: Format<W>, s: State<W>, steps: seq<Step<W>>, t: State<W>)
    decreases |steps|
  {
    if steps == [] then s == t
    else Enabled(f, s, steps[0]) && Run(f, Take(f, s, steps[0]), steps[1..], t)
  }

  ghost predicate Boot<W(!new)>(s: State<W>) {
    && s.tlb == {} && LockFree(s) && s.waiting == None && s.before == None
    && forall c :: c in s.active ==> s.active[c] in s.spaces
  }

  // ---- What holds at every step -------------------------------------------

  /** The cached translation is what root `r` gives in `mem`. */
  ghost predicate Matches<W(!new)>(f: Format<W>, mem: Memory<W>, r: W, e: Entry<W>) {
    && 1 <= |e.prefix| <= f.levels
    && forall p :: IsAddress(f, p) && e.prefix <= p ==>
         Walk(f, mem, r, p) == Hit(f.levels - |e.prefix| + 1, e.slot, e.word)
  }

  /** Every CPU outside a root switch caches only what the tables say now. */
  ghost predicate Coherent<W(!new)>(f: Format<W>, s: State<W>) {
    forall x :: x in s.tlb && s.switching != Some(x.cpu) ==>
      x.cpu in s.active && Matches(f, s.mem, s.active[x.cpu], x.entry)
  }

  /** CPU `c` may still hold translations from before the store being flushed. */
  ghost predicate Owes<W(!new)>(s: State<W>, c: Cpu) {
    s.before.Some? && (s.waiting == None || c in s.waiting.value)
  }

  ghost predicate Pending<W(!new)>(f: Format<W>, s: State<W>) {
    match s.before
    case None => Disciplined(f, s.spaces, s.mem, s.todo)
    case Some(b) =>
      && s.todo != [] && s.todo[0].Flush?
      && AgreeOff(f, b.mem, s.mem, b.slot)
      && Covers(f, s.spaces, b.mem, b.slot, s.todo[0])
      && (f.strict ==> !Live(f, s.spaces, s.mem, b.slot))
      && Disciplined(f, s.spaces, s.mem, s.todo[1..])
  }

  ghost predicate Explained<W(!new)>(f: Format<W>, s: State<W>, x: Cached<W>)
    requires x.cpu in s.active
  {
    || Matches(f, s.mem, s.active[x.cpu], x.entry)
    || (Owes(s, x.cpu) && Matches(f, s.before.value.mem, s.active[x.cpu], x.entry))
  }

  /** The memory all cached translations come from. */
  ghost function Image<W(!new)>(s: State<W>): Memory<W> {
    if s.before.Some? then s.before.value.mem else s.mem
  }

  ghost predicate Inv<W(!new)>(f: Format<W>, s: State<W>) {
    && (forall c :: c in s.active ==> s.active[c] in s.spaces)
    && (forall x :: x in s.tlb ==> x.cpu in s.active)
    && (s.switching.Some? ==> s.todo == [])
    && (s.todo == [] ==> s.before == None && s.waiting == None)
    && (s.waiting.Some? ==> s.todo[0].Flush?)
    && Pending(f, s)
    && (forall x :: x in s.tlb && s.switching != Some(x.cpu) ==> Explained(f, s, x))
    && (f.strict ==>
          forall x :: x in s.tlb && s.switching != Some(x.cpu) ==> Matches(f, Image(s), s.active[x.cpu], x.entry))
  }

  /** An entry whose addresses do not read slot `s` survives a change of that slot. */
  lemma MatchesFrame<W(!new)>(f: Format<W>, m: Memory<W>, n: Memory<W>, s: Slot<W>, r: W, e: Entry<W>)
    requires Matches(f, m, r, e) && AgreeOff(f, m, n, s)
    requires forall p :: IsAddress(f, p) && e.prefix <= p ==> !Visits(f, m, r, p, s)
    ensures Matches(f, n, r, e)
  {
    forall p | IsAddress(f, p) && e.prefix <= p
      ensures Walk(f, n, r, p) == Walk(f, m, r, p)
    {
      WalkFrame(f, m, n, s, r, p);
    }
  }

  lemma FillMatches<W(!new)>(f: Format<W>, mem: Memory<W>, r: W, p: Path<W>)
    requires IsAddress(f, p) && Walk(f, mem, r, p).Hit?
    ensures var h := Walk(f, mem, r, p); Matches(f, mem, r, Entry(Consumed(p, h.rest), h.slot, h.word))
  {
    var h := Walk(f, mem, r, p);
    forall q | IsAddress(f, q) && Consumed(p, h.rest) <= q
      ensures Walk(f, mem, r, q) == h
    {
      HitPrefix(f, mem, r, p, q);
    }
  }

  /** Entries not reached by a covering flush are not read through the stored slot. */
  lemma OutOfReach<W(!new)>(f: Format<W>, spaces: set<W>, mem: Memory<W>, s: Slot<W>, flush: Event<W>, r: W, e: Entry<W>)
    requires flush.Flush? && Covers(f, spaces, mem, s, flush) && r in spaces && Matches(f, mem, r, e)
    requires !(flush.only == None || flush.only == Some(r)) || !InScope(flush.scope, e.prefix)
    ensures forall p :: IsAddress(f, p) && e.prefix <= p ==> !Visits(f, mem, r, p, s)
  {
    forall p | IsAddress(f, p) && e.prefix <= p
      ensures !Visits(f, mem, r, p, s)
    {
      assert Walk(f, mem, r, p).Hit?;
      assert Consumed(p, Walk(f, mem, r, p).rest) == e.prefix;
    }
  }

  /** A translation cached while a slot is broken was there before the break. */
  lemma FillMatchesImage<W(!new)>(f: Format<W>, s: State<W>, c: Cpu, p: Path<W>)
    requires Inv(f, s) && Enabled(f, s, Fill(c, p)) && f.strict && s.before.Some?
    ensures Matches(f, Image(s), s.active[c], Filled(f, s, c, p).entry)
  {
    var b, r, e := s.before.value, s.active[c], Filled(f, s, c, p).entry;
    FillMatches(f, s.mem, r, p);
    forall q | IsAddress(f, q) && e.prefix <= q
      ensures !Visits(f, s.mem, r, q, b.slot)
    {
      assert Walk(f, s.mem, r, q).Hit?;
    }
    MatchesFrame(f, s.mem, b.mem, b.slot, r, e);
  }

  lemma FillKeeps<W(!new)>(f: Format<W>, s: State<W>, c: Cpu, p: Path<W>)
    requires Inv(f, s) && Enabled(f, s, Fill(c, p))
    ensures Inv(f, Take(f, s, Fill(c, p)))
  {
    var t := Take(f, s, Fill(c, p));
    var x := Filled(f, s, c, p);
    FillMatches(f, s.mem, s.active[c], p);
    if f.strict && s.before.Some? {
      FillMatchesImage(f, s, c, p);
    }
    forall y | y in t.tlb && t.switching != Some(y.cpu)
      ensures y.cpu in t.active && Explained(f, t, y)
      ensures f.strict ==> Matches(f, Image(t), t.active[y.cpu], y.entry)
    {
      assert y == x || (y in s.tlb && Explained(f, s, y));
    }
    assert Pending(f, s) && Pending(f, t);
  }

  lemma StoreKeeps<W(!new)>(f: Format<W>, s: State<W>)
    requires Inv(f, s) && Enabled(f, s, DoStore)
    ensures Inv(f, Take(f, s, DoStore))
  {
    var t := Take(f, s, DoStore);
    var Store(slot, w) := s.todo[0];
    assert s.before == None;
    assert AgreeOff(f, s.mem, t.mem, slot);
    if Live(f, s.spaces, s.mem, slot) {
      assert s.todo[1..][1..] == s.todo[2..];
    } else {
      forall x | x in s.tlb
        ensures Matches(f, t.mem, s.active[x.cpu], x.entry)
      {
        var r, e := s.active[x.cpu], x.entry;
        forall p | IsAddress(f, p) && e.prefix <= p
          ensures !Visits(f, s.mem, r, p, slot)
        {
          assert Explained(f, s, x);
          assert Walk(f, s.mem, r, p).Hit?;
        }
        MatchesFrame(f, s.mem, t.mem, slot, r, e);
      }
    }
  }

  lemma FlushStartKeeps<W(!new)>(f: Format<W>, s: State<W>)
    requires Inv(f, s) && Enabled(f, s, FlushStart)
    ensures Inv(f, Take(f, s, FlushStart))
  {
    var t := Take(f, s, FlushStart);
    forall x | x in t.tlb
      ensures Explained(f, t, x)
    {
      assert Explained(f, s, x);
      var r := s.active[x.cpu];
      if s.before.Some? && x.cpu !in t.waiting.value && !Matches(f, s.mem, r, x.entry) {
        var b := s.before.value;
        OutOfReach(f, s.spaces, b.mem, b.slot, s.todo[0], r, x.entry);
        MatchesFrame(f, b.mem, s.mem, b.slot, r, x.entry);
      }
    }
  }

  lemma FlushOnKeeps<W(!new)>(f: Format<W>, s: State<W>, c: Cpu)
    requires Inv(f, s) && Enabled(f, s, FlushOn(c))
    ensures Inv(f, Take(f, s, FlushOn(c)))
  {
    var t := Take(f, s, FlushOn(c));
    forall x | x in t.tlb
      ensures Explained(f, t, x)
    {
      assert Explained(f, s, x);
      var r := s.active[x.cpu];
      if s.before.Some? && x.cpu == c && !Matches(f, s.mem, r, x.entry) {
        var b := s.before.value;
        OutOfReach(f, s.spaces, b.mem, b.slot, s.todo[0], r, x.entry);
        MatchesFrame(f, b.mem, s.mem, b.slot, r, x.entry);
      }
    }
  }

  lemma FlushDoneKeeps<W(!new)>(f: Format<W>, s: State<W>)
    requires Inv(f, s) && Enabled(f, s, FlushDone)
    ensures Inv(f, Take(f, s, FlushDone))
  {
    assert forall x :: x in s.tlb ==> Explained(f, s, x) && !Owes(s, x.cpu);
  }

  lemma SwitchKeeps<W(!new)>(f: Format<W>, s: State<W>, step: Step<W>)
    requires Inv(f, s) && Enabled(f, s, step)
    requires step.SwitchRoot? || step.FlushLocal? || step.SetSpaces? || step.Evict? || step.Begin?
    ensures Inv(f, Take(f, s, step))
  {
    var t := Take(f, s, step);
    assert forall x :: x in t.tlb ==> x in s.tlb;
    assert forall x :: x in s.tlb && s.switching != Some(x.cpu) ==> Explained(f, s, x);
  }

  lemma StepKeeps<W(!new)>(f: Format<W>, s: State<W>, step: Step<W>)
    requires Inv(f, s) && Enabled(f, s, step)
    ensures Inv(f, Take(f, s, step))
  {
    match step
    case Fill(c, p) => FillKeeps(f, s, c, p);
    case DoStore => StoreKeeps(f, s);
    case FlushStart => FlushStartKeeps(f, s);
    case FlushOn(c) => FlushOnKeeps(f, s, c);
    case FlushDone => FlushDoneKeeps(f, s);
    case _ => SwitchKeeps(f, s, step);
  }

  lemma {:induction false} RunKeeps<W(!new)>(f: Format<W>, s: State<W>, steps: seq<Step<W>>, t: State<W>)
    requires Inv(f, s) && Run(f, s, steps, t)
    ensures Inv(f, t)
    decreases |steps|
  {
    if steps != [] {
      StepKeeps(f, s, steps[0]);
      RunKeeps(f, Take(f, s, steps[0]), steps[1..], t);
    }
  }

  // ---- Main results -------------------------------------------------------

  /** Whenever the mapping lock is free, in any run, no CPU caches an outdated translation. */
  lemma CoherentWhenUnlocked<W(!new)>(f: Format<W>, s: State<W>, steps: seq<Step<W>>, t: State<W>)
    requires Boot(s) && Run(f, s, steps, t) && LockFree(t)
    ensures Coherent(f, t)
  {
    RunKeeps(f, s, steps, t);
    assert forall x :: x in t.tlb ==> Explained(f, t, x);
  }

  /** An address without a translation is unreachable from every CPU on that root once the lock is free. */
  lemma UnmappedIsUnreachable<W(!new)>(f: Format<W>, s: State<W>, steps: seq<Step<W>>, t: State<W>, r: W, p: Path<W>)
    requires Boot(s) && Run(f, s, steps, t) && LockFree(t)
    requires IsAddress(f, p) && Walk(f, t.mem, r, p) == Fault
    ensures forall x :: x in t.tlb && x.cpu in t.active && t.active[x.cpu] == r ==> !(x.entry.prefix <= p)
  {
    CoherentWhenUnlocked(f, s, steps, t);
  }

  /**
   * Break before make: at every point of every run, two cached translations for one address of
   * one root are the same translation, on whichever CPUs they are cached.
   */
  lemma NeverMixed<W(!new)>(f: Format<W>, s: State<W>, steps: seq<Step<W>>, t: State<W>, x: Cached<W>, y: Cached<W>)
    requires Boot(s) && Run(f, s, steps, t) && f.strict
    requires x in t.tlb && y in t.tlb && t.switching != Some(x.cpu) && t.switching != Some(y.cpu)
    requires x.cpu in t.active && y.cpu in t.active && t.active[x.cpu] == t.active[y.cpu]
    requires x.entry.prefix <= y.entry.prefix
    ensures x.entry == y.entry
  {
    RunKeeps(f, s, steps, t);
    var r, m := t.active[x.cpu], Image(t);
    assert Matches(f, m, r, x.entry) && Matches(f, m, r, y.entry);
    var p := y.entry.prefix + seq(f.levels - |y.entry.prefix|, _ => f.zero);
    assert IsAddress(f, p) && y.entry.prefix <= p && x.entry.prefix <= p;
    assert |x.entry.prefix| == |y.entry.prefix|;
  }

  // ---- Critical sections can be carried out --------------------------------

  /** A state in the middle of a critical section. */
  ghost predicate Busy<W(!new)>(s: State<W>) {
    s.switching == None && (s.waiting.Some? ==> s.todo != [] && s.todo[0].Flush?)
  }

  /** What the lock holder has still to do has a run, which leaves the tables it says. */
  lemma {:induction false} Finishes<W(!new)>(f: Format<W>, s: State<W>) returns (steps: seq<Step<W>>, t: State<W>)
    requires Busy(s)
    ensures Run(f, s, steps, t) && LockFree(t) && t.waiting == None && t.mem == After(s.mem, s.todo)
    ensures t.spaces == s.spaces && t.active == s.active
    decreases |s.todo|, if s.waiting.None? then 1 else 0, if s.waiting.Some? then |s.waiting.value| else 0
  {
    if s.todo == [] {
      steps, t := [], s;
    } else {
      var step :=
        if s.todo[0].Store? then DoStore
        else if s.waiting.None? then FlushStart
        else if s.waiting.value == {} then FlushDone
        else var c :| c in s.waiting.value; FlushOn(c);
      var rest;
      rest, t := Finishes(f, Take(f, s, step));
      steps := [step] + rest;
    }
  }

  /** From any state with the lock free, a disciplined critical section has a run through to its end. */
  lemma CarriesOut<W(!new)>(f: Format<W>, s: State<W>, events: seq<Event<W>>) returns (steps: seq<Step<W>>, t: State<W>)
    requires LockFree(s) && s.waiting == None && Disciplined(f, s.spaces, s.mem, events)
    ensures Run(f, s, steps, t) && LockFree(t) && t.waiting == None && t.mem == After(s.mem, events)
    ensures t.spaces == s.spaces && t.active == s.active
  {
    var rest;
    rest, t := Finishes(f, Take(f, s, Begin(events)));
    steps := [Begin(events)] + rest;
  }

  lemma {:induction false} RunConcat<W(!new)>(f: Format<W>, s: State<W>, d: seq<Step<W>>, t: State<W>, e: seq<Step<W>>, u: State<W>)
    requires Run(f, s, d, t) && Run(f, t, e, u)
    ensures Run(f, s, d + e, u)
    decreases |d|
  {
    if d == [] {
      assert d + e == e;
    } else {
      assert (d + e)[1..] == d[1..] + e;
      RunConcat(f, Take(f, s, d[0]), d[1..], t, e, u);
    }
  }

  /** Carried out in any reachable state, it leaves every cache in agreement with the tables it made. */
  lemma CoherentAfter<W(!new)>(f: Format<W>, s: State<W>, steps: seq<Step<W>>, t: State<W>, events: seq<Event<W>>)
    returns (more: seq<Step<W>>, u: State<W>)
    requires Boot(s) && Run(f, s, steps, t) && LockFree(t) && t.waiting == None && Disciplined(f, t.spaces, t.mem, events)
    ensures Run(f, t, more, u) && LockFree(u) && u.mem == After(t.mem, events) && Coherent(f, u)
  {
    more, u := CarriesOut(f, t, events);
    RunConcat(f, s, steps, t, more, u);
    CoherentWhenUnlocked(f, s, steps + more, u);
  }

  /** In whatever reachable state the machine takes the lock with tables `before`, these events may be its critical
      section, and it can be carried out to leave tables `after` and every cache in agreement with them. */
  ghost predicate Interleaves<W(!new)>(f: Format<W>, spaces: set<W>, before: Memory<W>, events: seq<Event<W>>, after: Memory<W>) {
    forall s: State<W>, steps: seq<Step<W>>, t: State<W> ::
      Boot(s) && Run(f, s, steps, t) && LockFree(t) && t.waiting == None && t.mem == before && t.spaces == spaces ==>
        Enabled(f, t, Begin(events)) && EndsCoherent(f, Take(f, t, Begin(events)), after)
  }

  ghost predicate EndsCoherent<W(!new)>(f: Format<W>, t: State<W>, after: Memory<W>) {
    exists more: seq<Step<W>>, u: State<W> :: Run(f, t, more, u) && LockFree(u) && u.mem == after && Coherent(f, u)
  }

  lemma SectionInterleaves<W(!new)>(f: Format<W>, spaces: set<W>, before: Memory<W>, events: seq<Event<W>>)
    requires Disciplined(f, spaces, before, events)
    ensures Interleaves(f, spaces, before, events, After(before, events))
  {
    forall s: State<W>, steps: seq<Step<W>>, t: State<W>
      | Boot(s) && Run(f, s, steps, t) && LockFree(t) && t.waiting == None && t.mem == before && t.spaces == spaces
      ensures Enabled(f, t, Begin(events)) && EndsCoherent(f, Take(f, t, Begin(events)), After(before, events))
    {
      SectionEnds(f, s, steps, t, events);
    }
  }

  lemma SectionEnds<W(!new)>(f: Format<W>, s: State<W>, steps: seq<Step<W>>, t: State<W>, events: seq<Event<W>>)
    requires Boot(s) && Run(f, s, steps, t) && LockFree(t) && t.waiting == None && Disciplined(f, t.spaces, t.mem, events)
    ensures EndsCoherent(f, Take(f, t, Begin(events)), After(t.mem, events))
  {
    var mid := Take(f, t, Begin(events));
    var rest, u := Finishes(f, mid);
    var begin: seq<Step<W>> := [Begin(events)];
    assert Run(f, t, begin + rest, u);
    RunConcat(f, s, steps, t, begin + rest, u);
    CoherentWhenUnlocked(f, s, steps + (begin + rest), u);
  }
}
