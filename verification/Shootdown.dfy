/**
 * The amd64 shootdown: a table store is followed by a local `invlpg`, one mailbox and one NMI
 * for every other CPU concerned, and a wait for all acknowledgements.
 *
 * The protocol is proved to carry out the flushes of the `Tlb` machine, so what holds there in
 * every run holds here.
 */
module Shootdown {
  import opened Options
  import opened Radix
  import Tlb

  const CPU_LIMIT := 64

  type Cpu = Tlb.Cpu

  datatype Mailbox<W> = Mailbox(address: Path<W>, requested: nat, completed: nat)

  /** How far a CPU's NMI handler has got with the generation it loaded. */
  datatype Service = Idle | Loaded(generation: nat) | Flushed(generation: nat)

  /** The three actions for one target: payload, generation, interrupt. */
  datatype Post = Payload | Generation | Interrupt

  datatype Phase =
    | Unlocked
    | Editing(self: Cpu)
    | Posting(self: Cpu, id: nat, post: Post, sequences: map<Cpu, nat>)
    | Awaiting(self: Cpu, id: nat, sequences: map<Cpu, nat>)
    | Entering(self: Cpu)      // between the CR3 load and the active-root table update

  datatype Machine<W(==)> = Machine(
    mem: Memory<W>, spaces: set<W>,
    active: map<Cpu, W>,    // CR3 of each running CPU
    tlb: set<Tlb.Cached<W>>,
    todo: seq<Tlb.Event<W>>,
    before: Option<Tlb.Before<W>>,
    roots: map<Cpu, W>,     // the software table of active roots
    box: seq<Mailbox<W>>, service: seq<Service>, nmi: set<Cpu>,
    phase: Phase)

  datatype Step<W> =
    | Hardware(step: Tlb.Step<W>)           // Fill or Evict
    | Spaces(spaces: set<W>)
    | Lock(cpu: Cpu, events: seq<Tlb.Event<W>>)
    | Write
    | Invlpg
    | PostNext
    | Await
    | Finish
    | Release
    | MovCr3(cpu: Cpu, root: W)
    | Enter
    | Deliver(cpu: Cpu, spurious: bool)
    | ServiceFlush(cpu: Cpu)
    | ServiceAck(cpu: Cpu)

  /** The CPUs an invalidation by `self` must interrupt, from the software table. */
  ghost predicate Interrupts<W(!new)>(m: Machine<W>, self: Cpu, e: Tlb.Event<W>, c: Cpu) {
    e.Flush? && c != self && c in m.roots && (e.only == None || e.only == Some(m.roots[c]))
  }

  /** The lock holder flushes pages of its own root, or shared pages on every CPU. */
  ghost predicate OwnFlushes<W(!new)>(m: Machine<W>, self: Cpu, events: seq<Tlb.Event<W>>) {
    forall i :: 0 <= i < |events| && events[i].Flush? ==>
      self in m.active && events[i].scope.Page? && (events[i].only == None || events[i].only == Some(m.active[self]))
  }

  ghost predicate Flushing<W(!new)>(m: Machine<W>) {
    (m.phase.Posting? || m.phase.Awaiting?) && m.todo != [] && m.todo[0].Flush? && m.todo[0].scope.Page?
  }

  /** The request for the flush under way is visible in `c`'s mailbox. */
  ghost predicate Posted<W(!new)>(m: Machine<W>, c: Cpu)
    requires m.phase.Posting? || m.phase.Awaiting?
  {
    m.phase.Awaiting? || c < m.phase.id || (c == m.phase.id && m.phase.post == Interrupt)
  }

  ghost predicate Sized<W(!new)>(m: Machine<W>) {
    |m.box| == |m.service| == CPU_LIMIT
  }

  /** `c` still has to drop the page being flushed. */
  ghost predicate Owes<W(!new)>(m: Machine<W>, c: Cpu)
    requires Sized(m) && Flushing(m)
  {
    && c < CPU_LIMIT && Interrupts(m, m.phase.self, m.todo[0], c)
    && (Posted(m, c) ==> m.box[c].requested != m.box[c].completed && !m.service[c].Flushed?)
  }

  /** The `Tlb` state this machine state stands for. */
  ghost function Abs<W(!new)>(m: Machine<W>): Tlb.State<W>
    requires Sized(m)
  {
    Tlb.State(m.mem, m.spaces, m.active, m.tlb, m.todo,
              if Flushing(m) then Some(set c: Cpu | c < CPU_LIMIT && Owes(m, c)) else None,
              None, m.before)
  }

  ghost predicate Enabled<W(!new)>(f: Format<W>, m: Machine<W>, step: Step<W>)
    requires Sized(m)
  {
    match step
    case Hardware(h) => (h.Fill? || h.Evict?) && Tlb.Enabled(f, Abs(m), h)
    case Spaces(rs) => m.phase.Unlocked? && Tlb.Enabled(f, Abs(m), Tlb.SetSpaces(rs))
    case Lock(c, events) =>
      && m.phase.Unlocked? && c in m.active && OwnFlushes(m, c, events)
      && Tlb.Enabled(f, Abs(m), Tlb.Begin(events))
    case Write => m.phase.Editing? && m.todo != [] && m.todo[0].Store?
    case Invlpg => m.phase.Editing? && m.todo != [] && m.todo[0].Flush?
    case PostNext => m.phase.Posting? && m.phase.id < CPU_LIMIT && m.todo != []
    case Await =>
      || (m.phase.Posting? && m.phase.id >= CPU_LIMIT)
      || (m.phase.Awaiting? && m.phase.id < CPU_LIMIT && m.todo != [] &&
          (Interrupts(m, m.phase.self, m.todo[0], m.phase.id) ==>
             m.phase.id in m.phase.sequences && m.box[m.phase.id].completed == m.phase.sequences[m.phase.id]))
    case Finish => m.phase.Awaiting? && m.phase.id >= CPU_LIMIT && m.todo != []
    case Release => m.phase.Editing? && m.todo == []
    case MovCr3(c, r) => m.phase.Unlocked? && c in m.active && r in m.spaces
    case Enter => m.phase.Entering? && m.phase.self in m.active
    case Deliver(c, spurious) => c < CPU_LIMIT && m.service[c].Idle? && (spurious || c in m.nmi)
    case ServiceFlush(c) => c < CPU_LIMIT && m.service[c].Loaded?
    case ServiceAck(c) => c < CPU_LIMIT && m.service[c].Flushed?
  }

  ghost function WithoutPage<W(!new)>(tlb: set<Tlb.Cached<W>>, c: Cpu, address: Path<W>): set<Tlb.Cached<W>> {
    set x | x in tlb && !(x.cpu == c && x.entry.prefix <= address)
  }

  /** One action of the loop that posts requests. */
  ghost function Posting1<W(!new)>(m: Machine<W>): (n: Machine<W>)
    requires Sized(m) && m.phase.Posting? && m.phase.id < CPU_LIMIT && m.todo != []
    ensures Sized(n)
  {
    var id, p := m.phase.id, m.phase;
    if !Interrupts(m, p.self, m.todo[0], id) || m.todo[0].scope.Everything? then
      m.(phase := p.(id := id + 1, post := Payload))
    else
      match p.post
      case Payload =>
        m.(box := m.box[id := m.box[id].(address := m.todo[0].scope.path)], phase := p.(post := Generation))
      case Generation =>
        var next := m.box[id].requested + 1;
        m.(box := m.box[id := m.box[id].(requested := next)],
           phase := p.(post := Interrupt, sequences := p.sequences[id := next]))
      case Interrupt =>
        m.(nmi := m.nmi + {id}, phase := p.(id := id + 1, post := Payload))
  }

  ghost function Take<W(!new)>(f: Format<W>, m: Machine<W>, step: Step<W>): (n: Machine<W>)
    requires Sized(m) && Enabled(f, m, step)
    ensures Sized(n)
  {
    match step
    case Hardware(h) => m.(tlb := Tlb.Take(f, Abs(m), h).tlb)
    case Spaces(rs) => m.(spaces := rs)
    case Lock(c, events) => m.(todo := events, phase := Editing(c))
    case Write =>
      var t := Tlb.Take(f, Abs(m), Tlb.DoStore);
      m.(mem := t.mem, todo := t.todo, before := t.before)
    case Invlpg =>
      m.(tlb := WithoutPage(m.tlb, m.phase.self, if m.todo[0].scope.Page? then m.todo[0].scope.path else []),
         phase := Posting(m.phase.self, 0, Payload, map[]))
    case PostNext => Posting1(m)
    case Await =>
      if m.phase.Posting? then m.(phase := Awaiting(m.phase.self, 0, m.phase.sequences))
      else m.(phase := Awaiting(m.phase.self, m.phase.id + 1, m.phase.sequences))
    case Finish => m.(todo := m.todo[1..], before := None, phase := Editing(m.phase.self))
    case Release => m.(phase := Unlocked)
    case MovCr3(c, r) =>
      m.(active := m.active[c := r], tlb := (set x | x in m.tlb && x.cpu != c), phase := Entering(c))
    case Enter => m.(roots := m.roots[m.phase.self := m.active[m.phase.self]], phase := Unlocked)
    case Deliver(c, _) =>
      var q := m.box[c].requested;
      m.(nmi := m.nmi - {c}, service := m.service[c := if q == m.box[c].completed then Idle else Loaded(q)])
    case ServiceFlush(c) =>
      m.(tlb := WithoutPage(m.tlb, c, m.box[c].address), service := m.service[c := Flushed(m.service[c].generation)])
    case ServiceAck(c) =>
      m.(box := m.box[c := m.box[c].(completed := m.service[c].generation)], service := m.service[c := Idle])
  }

  ghost predicate Run<W(!new)>(f: Format<W>, m: Machine<W>, steps: seq<Step<W>>, n: Machine<W>)
    requires Sized(m)
    decreases |steps|
  {
    if steps == [] then m == n
    else Enabled(f, m, steps[0]) && Run(f, Take(f, m, steps[0]), steps[1..], n)
  }

  ghost predicate Boot<W(!new)>(m: Machine<W>) {
    && Sized(m) && m.phase.Unlocked? && Tlb.Boot(Abs(m)) && m.roots == m.active
    && (forall c :: c in m.active ==> c < CPU_LIMIT)
    && (forall c :: 0 <= c < CPU_LIMIT ==> m.box[c].requested == m.box[c].completed && m.service[c].Idle?)
  }

  // ---- What holds at every step -------------------------------------------

  /** The mailbox of `c` while no request is outstanding. */
  ghost predicate Rests<W(!new)>(m: Machine<W>, c: Cpu)
    requires Sized(m) && c < CPU_LIMIT
  {
    m.box[c].requested == m.box[c].completed && m.service[c].Idle?
  }

  /** The mailbox of `c` once the request for the current flush is in it. */
  ghost predicate Serves<W(!new)>(m: Machine<W>, c: Cpu)
    requires Sized(m) && Flushing(m) && c < CPU_LIMIT
  {
    var b, sent := m.box[c], m.phase.Awaiting? || c < m.phase.id;
    && c in m.phase.sequences && m.phase.sequences[c] == b.requested
    && b.address == m.todo[0].scope.path
    && (Rests(m, c) ||
        (b.requested != b.completed &&
         match m.service[c]
         case Idle => sent ==> c in m.nmi
         case Loaded(q) => q == b.requested
         case Flushed(q) => q == b.requested))
  }

  ghost predicate Placed<W(!new)>(m: Machine<W>, c: Cpu)
    requires Sized(m) && c < CPU_LIMIT
  {
    if Flushing(m) && Interrupts(m, m.phase.self, m.todo[0], c) && Posted(m, c) then Serves(m, c) else Rests(m, c)
  }

  /** The lock holder and the two active-root tables. */
  ghost predicate Framed<W(!new)>(m: Machine<W>)
    requires Sized(m)
  {
    && (forall c :: c in m.active ==> c < CPU_LIMIT)
    && (!m.phase.Unlocked? ==> m.phase.self in m.active)
    && (if m.phase.Entering?
        then m.phase.self in m.active && m.roots[m.phase.self := m.active[m.phase.self]] == m.active
        else m.roots == m.active)
    && (if m.phase.Unlocked? || m.phase.Entering? then m.todo == [] else OwnFlushes(m, m.phase.self, m.todo))
    && (m.phase.Posting? || m.phase.Awaiting? ==> Flushing(m) && m.phase.id <= CPU_LIMIT)
    && (m.phase.Posting? && m.phase.post != Payload ==>
          && m.phase.id < CPU_LIMIT && Interrupts(m, m.phase.self, m.todo[0], m.phase.id)
          && m.box[m.phase.id].address == m.todo[0].scope.path)
  }

  ghost predicate Inv<W(!new)>(f: Format<W>, m: Machine<W>) {
    && Sized(m) && Tlb.Inv(f, Abs(m)) && Framed(m)
    && (forall c :: 0 <= c < CPU_LIMIT ==> Placed(m, c))
    && (m.phase.Awaiting? ==>
          forall c :: 0 <= c < m.phase.id && Interrupts(m, m.phase.self, m.todo[0], c) ==> Rests(m, c))
  }

  /** The `Tlb` steps that one step of this machine stands for. */
  ghost function Means<W(!new)>(m: Machine<W>, step: Step<W>): seq<Tlb.Step<W>> {
    match step
    case Hardware(h) => [h]
    case Spaces(rs) => [Tlb.SetSpaces(rs)]
    case Lock(_, events) => [Tlb.Begin(events)]
    case Write => [Tlb.DoStore]
    case Invlpg => if m.phase.Editing? then [Tlb.FlushStart, Tlb.FlushOn(m.phase.self)] else []
    case Finish => [Tlb.FlushDone]
    case MovCr3(c, r) => [Tlb.SwitchRoot(c, r), Tlb.FlushLocal]
    case ServiceFlush(c) => [Tlb.FlushOn(c)]
    case _ => []
  }

  lemma RunOne<W(!new)>(f: Format<W>, s: Tlb.State<W>, step: Tlb.Step<W>)
    requires Tlb.Enabled(f, s, step)
    ensures Tlb.Run(f, s, [step], Tlb.Take(f, s, step))
  {
    assert [step][1..] == [];
  }

  lemma RunTwo<W(!new)>(f: Format<W>, s: Tlb.State<W>, first: Tlb.Step<W>, second: Tlb.Step<W>)
    requires Tlb.Enabled(f, s, first) && Tlb.Enabled(f, Tlb.Take(f, s, first), second)
    ensures Tlb.Run(f, s, [first, second], Tlb.Take(f, Tlb.Take(f, s, first), second))
  {
    assert [first, second][1..] == [second];
    RunOne(f, Tlb.Take(f, s, first), second);
  }

  lemma InvlpgSimulates<W(!new)>(f: Format<W>, m: Machine<W>)
    requires Inv(f, m) && Enabled(f, m, Invlpg)
    ensures Tlb.Run(f, Abs(m), Means(m, Invlpg), Abs(Take(f, m, Invlpg)))
  {
    var s, n, self := Abs(m), Take(f, m, Invlpg), m.phase.self;
    var s1 := Tlb.Take(f, s, Tlb.FlushStart);
    assert OwnFlushes(m, self, m.todo);
    assert self in s1.waiting.value;
    RunTwo(f, s, Tlb.FlushStart, Tlb.FlushOn(self));
    var s2 := Tlb.Take(f, s1, Tlb.FlushOn(self));
    assert Flushing(n);
    assert Abs(n).waiting.value == s2.waiting.value;
    assert n.tlb == s2.tlb;
    assert Abs(n) == s2;
  }

  lemma FinishSimulates<W(!new)>(f: Format<W>, m: Machine<W>)
    requires Inv(f, m) && Enabled(f, m, Finish)
    ensures Tlb.Run(f, Abs(m), Means(m, Finish), Abs(Take(f, m, Finish)))
  {
    forall c: Cpu | c < CPU_LIMIT
      ensures !Owes(m, c)
    {
      assert Interrupts(m, m.phase.self, m.todo[0], c) ==> Rests(m, c);
    }
    assert Abs(m).waiting.value == {};
    RunOne(f, Abs(m), Tlb.FlushDone);
    assert Abs(Take(f, m, Finish)) == Tlb.Take(f, Abs(m), Tlb.FlushDone);
  }

  lemma ServiceFlushSimulates<W(!new)>(f: Format<W>, m: Machine<W>, c: Cpu)
    requires Inv(f, m) && Enabled(f, m, ServiceFlush(c))
    ensures Tlb.Run(f, Abs(m), Means(m, ServiceFlush(c)), Abs(Take(f, m, ServiceFlush(c))))
  {
    var n := Take(f, m, ServiceFlush(c));
    assert Placed(m, c) && !Rests(m, c);
    assert Owes(m, c);
    RunOne(f, Abs(m), Tlb.FlushOn(c));
    var t := Tlb.Take(f, Abs(m), Tlb.FlushOn(c));
    assert Flushing(n);
    assert Abs(n).waiting.value == t.waiting.value;
    assert n.tlb == t.tlb;
    assert Abs(n) == t;
  }

  lemma MovCr3Simulates<W(!new)>(f: Format<W>, m: Machine<W>, c: Cpu, r: W)
    requires Inv(f, m) && Enabled(f, m, MovCr3(c, r))
    ensures Tlb.Run(f, Abs(m), Means(m, MovCr3(c, r)), Abs(Take(f, m, MovCr3(c, r))))
  {
    RunTwo(f, Abs(m), Tlb.SwitchRoot(c, r), Tlb.FlushLocal);
  }

  /** Steps that only move the protocol along leave the set of owing CPUs as it is. */
  lemma QuietSimulates<W(!new)>(f: Format<W>, m: Machine<W>, step: Step<W>)
    requires Inv(f, m) && Enabled(f, m, step) && Means(m, step) == []
    ensures Abs(Take(f, m, step)) == Abs(m)
  {
    var n := Take(f, m, step);
    if m.phase.Posting? || m.phase.Awaiting? {
      assert Flushing(m) && Flushing(n);
      forall c: Cpu | c < CPU_LIMIT
        ensures Owes(m, c) <==> Owes(n, c)
      {
        assert Interrupts(m, m.phase.self, m.todo[0], c) <==> Interrupts(n, n.phase.self, n.todo[0], c);
        assert Placed(m, c);
      }
      assert Abs(n).waiting.value == Abs(m).waiting.value;
    }
  }

  lemma HardwareSimulates<W(!new)>(f: Format<W>, m: Machine<W>, h: Tlb.Step<W>)
    requires Inv(f, m) && Enabled(f, m, Hardware(h))
    ensures Tlb.Run(f, Abs(m), [h], Abs(Take(f, m, Hardware(h))))
  {
    var n := Take(f, m, Hardware(h));
    RunOne(f, Abs(m), h);
    if Flushing(m) {
      assert forall c: Cpu :: c < CPU_LIMIT ==> (Owes(m, c) <==> Owes(n, c));
      assert Abs(n).waiting.value == Abs(m).waiting.value;
    }
    assert Abs(n) == Tlb.Take(f, Abs(m), h);
  }

  lemma StepSimulates<W(!new)>(f: Format<W>, m: Machine<W>, step: Step<W>)
    requires Inv(f, m) && Enabled(f, m, step)
    ensures Tlb.Run(f, Abs(m), Means(m, step), Abs(Take(f, m, step)))
  {
    var n := Take(f, m, step);
    match step
    case Hardware(h) => HardwareSimulates(f, m, h);
    case Spaces(rs) => RunOne(f, Abs(m), Tlb.SetSpaces(rs));
    case Lock(c, events) => RunOne(f, Abs(m), Tlb.Begin(events));
    case Write => RunOne(f, Abs(m), Tlb.DoStore);
    case Invlpg => InvlpgSimulates(f, m);
    case Finish => FinishSimulates(f, m);
    case MovCr3(c, r) => MovCr3Simulates(f, m, c, r);
    case ServiceFlush(c) => ServiceFlushSimulates(f, m, c);
    case _ => QuietSimulates(f, m, step);
  }

  /** The steps of a CPU that was interrupted. */
  predicate Services<W>(step: Step<W>) {
    step.Deliver? || step.ServiceFlush? || step.ServiceAck?
  }

  lemma PlacedKeeps<W(!new)>(f: Format<W>, m: Machine<W>, step: Step<W>, c: Cpu)
    requires Inv(f, m) && Enabled(f, m, step) && c < CPU_LIMIT
    ensures Placed(Take(f, m, step), c)
  {
    if Services(step) {
      ServicePlaced(f, m, step, c);
    } else if step.PostNext? || step.Await? || step.Finish? {
      WaitPlaced(f, m, step, c);
    } else {
      FlowPlaced(f, m, step, c);
    }
  }

  lemma ServicePlaced<W(!new)>(f: Format<W>, m: Machine<W>, step: Step<W>, c: Cpu)
    requires Inv(f, m) && Enabled(f, m, step) && c < CPU_LIMIT && Services(step)
    ensures Placed(Take(f, m, step), c)
  {
    assert Placed(m, c) && Placed(m, step.cpu);
  }

  lemma WaitPlaced<W(!new)>(f: Format<W>, m: Machine<W>, step: Step<W>, c: Cpu)
    requires Inv(f, m) && Enabled(f, m, step) && c < CPU_LIMIT && (step.PostNext? || step.Await? || step.Finish?)
    ensures Placed(Take(f, m, step), c)
  {
    assert Placed(m, c);
  }

  lemma FlowPlaced<W(!new)>(f: Format<W>, m: Machine<W>, step: Step<W>, c: Cpu)
    requires Inv(f, m) && Enabled(f, m, step) && c < CPU_LIMIT && !Services(step)
    requires !step.PostNext? && !step.Await? && !step.Finish?
    ensures Placed(Take(f, m, step), c)
  {
    assert Placed(m, c);
  }

  lemma FramedKeeps<W(!new)>(f: Format<W>, m: Machine<W>, step: Step<W>)
    requires Inv(f, m) && Enabled(f, m, step)
    ensures Framed(Take(f, m, step))
  {
    if Services(step) {
      ServiceFramed(f, m, step);
    } else {
      FlowFramed(f, m, step);
    }
  }

  lemma ServiceFramed<W(!new)>(f: Format<W>, m: Machine<W>, step: Step<W>)
    requires Inv(f, m) && Enabled(f, m, step) && Services(step)
    ensures Framed(Take(f, m, step))
  {
    assert Placed(m, step.cpu);
  }

  lemma FlowFramed<W(!new)>(f: Format<W>, m: Machine<W>, step: Step<W>)
    requires Inv(f, m) && Enabled(f, m, step) && !Services(step)
    ensures Framed(Take(f, m, step))
  {
    if Moves(step) {
      MoveFramed(f, m, step);
    } else {
      ShootFramed(f, m, step);
    }
  }

  /** Steps outside a shootdown. */
  predicate Moves<W>(step: Step<W>) {
    step.Hardware? || step.Spaces? || step.Lock? || step.MovCr3? || step.Enter?
  }

  lemma MoveFramed<W(!new)>(f: Format<W>, m: Machine<W>, step: Step<W>)
    requires Inv(f, m) && Enabled(f, m, step) && Moves(step)
    ensures Framed(Take(f, m, step))
  {
  }

  lemma ShootFramed<W(!new)>(f: Format<W>, m: Machine<W>, step: Step<W>)
    requires Inv(f, m) && Enabled(f, m, step) && !Services(step) && !Moves(step)
    ensures Framed(Take(f, m, step))
  {
  }

  lemma StepKeeps<W(!new)>(f: Format<W>, m: Machine<W>, step: Step<W>)
    requires Inv(f, m) && Enabled(f, m, step)
    ensures Inv(f, Take(f, m, step))
  {
    var n := Take(f, m, step);
    StepSimulates(f, m, step);
    Tlb.RunKeeps(f, Abs(m), Means(m, step), Abs(n));
    FramedKeeps(f, m, step);
    forall c | 0 <= c < CPU_LIMIT
      ensures Placed(n, c)
    {
      PlacedKeeps(f, m, step, c);
    }
    if m.phase.Awaiting? && n.phase.Awaiting? {
      forall c | 0 <= c < n.phase.id && Interrupts(n, n.phase.self, n.todo[0], c)
        ensures Rests(n, c)
      {
        assert Placed(m, c);
      }
    }
  }

  lemma {:induction false} RunKeeps<W(!new)>(f: Format<W>, m: Machine<W>, steps: seq<Step<W>>, n: Machine<W>)
    requires Inv(f, m) && Run(f, m, steps, n)
    ensures Inv(f, n)
    decreases |steps|
  {
    if steps != [] {
      StepKeeps(f, m, steps[0]);
      RunKeeps(f, Take(f, m, steps[0]), steps[1..], n);
    }
  }

  /** Every run of the protocol is a run of the `Tlb` machine. */
  lemma {:induction false} Refines<W(!new)>(f: Format<W>, m: Machine<W>, steps: seq<Step<W>>, n: Machine<W>) returns (meaning: seq<Tlb.Step<W>>)
    requires Inv(f, m) && Run(f, m, steps, n)
    ensures Sized(n) && Tlb.Run(f, Abs(m), meaning, Abs(n))
    decreases |steps|
  {
    if steps == [] {
      meaning := [];
    } else {
      StepKeeps(f, m, steps[0]);
      StepSimulates(f, m, steps[0]);
      var rest := Refines(f, Take(f, m, steps[0]), steps[1..], n);
      Tlb.RunConcat(f, Abs(m), Means(m, steps[0]), Abs(Take(f, m, steps[0])), rest, Abs(n));
      meaning := Means(m, steps[0]) + rest;
    }
  }

  lemma BootInv<W(!new)>(f: Format<W>, m: Machine<W>)
    requires Boot(m)
    ensures Inv(f, m)
  {
  }

  /** Every CPU caches only what its own tables give. */
  ghost predicate Coherent<W(!new)>(f: Format<W>, n: Machine<W>) {
    forall x :: x in n.tlb ==> x.cpu in n.active && Tlb.Matches(f, n.mem, n.active[x.cpu], x.entry)
  }

  /** When the mapping lock is free no CPU caches a translation that its tables do not give. */
  lemma CoherentWhenUnlocked<W(!new)>(f: Format<W>, m: Machine<W>, steps: seq<Step<W>>, n: Machine<W>)
    requires Boot(m) && Run(f, m, steps, n) && n.phase.Unlocked?
    ensures Coherent(f, n)
  {
    BootInv(f, m);
    RunKeeps(f, m, steps, n);
    var meaning := Refines(f, m, steps, n);
    Tlb.CoherentWhenUnlocked(f, Abs(m), meaning, Abs(n));
  }

  /** Service steps `c` has left before the initiator stops waiting for it. */
  ghost function StepsLeft<W(!new)>(m: Machine<W>, c: Cpu): nat
    requires Sized(m) && c < CPU_LIMIT
  {
    if m.box[c].requested == m.box[c].completed then 0
    else match m.service[c] case Idle => 3 case Loaded(_) => 2 case Flushed(_) => 1
  }

  /** The NMI-service step the target takes next. */
  ghost function NextService<W(!new)>(m: Machine<W>, c: Cpu): Step<W>
    requires Sized(m) && c < CPU_LIMIT
  {
    match m.service[c]
    case Idle => Deliver(c, false)
    case Loaded(_) => ServiceFlush(c)
    case Flushed(_) => ServiceAck(c)
  }

  /** `c` has been asked to flush and has not acknowledged. */
  ghost predicate Unacknowledged<W(!new)>(n: Machine<W>, c: Cpu)
    requires Sized(n) && Flushing(n)
  {
    c < CPU_LIMIT && Interrupts(n, n.phase.self, n.todo[0], c) && n.box[c].requested != n.box[c].completed
  }

  /** `c` has an NMI-service step to take, which needs no lock and brings its acknowledgement nearer. */
  ghost predicate Progresses<W(!new)>(f: Format<W>, n: Machine<W>, c: Cpu)
    requires Sized(n) && c < CPU_LIMIT
  {
    && StepsLeft(n, c) > 0
    && Enabled(f, n, NextService(n, c))
    && StepsLeft(Take(f, n, NextService(n, c)), c) < StepsLeft(n, c)
  }

  /**
   * A waiting initiator is never stuck: every target that has not acknowledged has a service step
   * to take, and if none is outstanding the initiator itself can go on.
   */
  lemma WaitMakesProgress<W(!new)>(f: Format<W>, m: Machine<W>, steps: seq<Step<W>>, n: Machine<W>)
    requires Boot(m) && Run(f, m, steps, n) && n.phase.Awaiting?
    ensures Sized(n) && Flushing(n)
    ensures forall c: Cpu :: Unacknowledged(n, c) ==> Progresses(f, n, c)
    ensures n.phase.id < CPU_LIMIT && !Enabled(f, n, Await) ==> Unacknowledged(n, n.phase.id)
    ensures n.phase.id >= CPU_LIMIT ==> Enabled(f, n, Finish)
  {
    BootInv(f, m);
    RunKeeps(f, m, steps, n);
    forall c: Cpu | Unacknowledged(n, c)
      ensures Progresses(f, n, c)
    {
      TargetGoesOn(f, n, c);
    }
    WaitGoesOn(f, n);
  }

  lemma TargetGoesOn<W(!new)>(f: Format<W>, n: Machine<W>, c: Cpu)
    requires Inv(f, n) && n.phase.Awaiting? && Flushing(n) && Unacknowledged(n, c)
    ensures Progresses(f, n, c)
  {
    assert Placed(n, c);
  }

  lemma WaitGoesOn<W(!new)>(f: Format<W>, n: Machine<W>)
    requires Inv(f, n) && n.phase.Awaiting?
    ensures Flushing(n)
    ensures n.phase.id < CPU_LIMIT && !Enabled(f, n, Await) ==> Unacknowledged(n, n.phase.id)
    ensures n.phase.id >= CPU_LIMIT ==> Enabled(f, n, Finish)
  {
    if n.phase.id < CPU_LIMIT {
      assert Placed(n, n.phase.id);
    }
  }

  /** No other step takes a service step away from the target or undoes one. */
  lemma ServiceIsStable<W(!new)>(f: Format<W>, m: Machine<W>, c: Cpu, step: Step<W>)
    requires Inv(f, m) && Enabled(f, m, step) && m.phase.Awaiting? && c < CPU_LIMIT
    requires Interrupts(m, m.phase.self, m.todo[0], c)
    ensures StepsLeft(Take(f, m, step), c) <= StepsLeft(m, c)
  {
    assert Placed(m, c);
  }

  // ---- Every critical section can be finished --------------------------------

  /** The next step towards releasing the lock. */
  ghost function Onward<W(!new)>(f: Format<W>, m: Machine<W>): Step<W>
    requires Sized(m) && !m.phase.Unlocked?
  {
    match m.phase
    case Entering(_) => Enter
    case Editing(_) => if m.todo == [] then Release else if m.todo[0].Store? then Write else Invlpg
    case Posting(_, id, _, _) => if id < CPU_LIMIT then PostNext else Await
    case Awaiting(_, id, _) =>
      if id >= CPU_LIMIT then Finish else if Enabled(f, m, Await) then Await else NextService(m, id)
  }

  ghost function Stage(p: Phase): nat {
    match p
    case Unlocked => 0
    case Entering(_) => 1
    case Awaiting(_, _, _) => 2
    case Posting(_, _, _, _) => 3
    case Editing(_) => 4
  }

  /** How many CPUs the loop under way has still to look at. */
  ghost function Ahead(p: Phase): nat {
    if (p.Posting? || p.Awaiting?) && p.id < CPU_LIMIT then CPU_LIMIT - p.id else 0
  }

  ghost function Turns<W(!new)>(m: Machine<W>): nat
    requires Sized(m)
  {
    if m.phase.Posting? then (match m.phase.post case Payload => 2 case Generation => 1 case Interrupt => 0)
    else if m.phase.Awaiting? && m.phase.id < CPU_LIMIT then StepsLeft(m, m.phase.id)
    else 0
  }

  ghost predicate Closer<W(!new)>(n: Machine<W>, m: Machine<W>)
    requires Sized(m) && Sized(n)
  {
    || |n.todo| < |m.todo|
    || (|n.todo| == |m.todo| && Stage(n.phase) < Stage(m.phase))
    || (|n.todo| == |m.todo| && Stage(n.phase) == Stage(m.phase) && Ahead(n.phase) < Ahead(m.phase))
    || (|n.todo| == |m.todo| && Stage(n.phase) == Stage(m.phase) && Ahead(n.phase) == Ahead(m.phase) && Turns(n) < Turns(m))
  }

  /** That step is always possible, and brings the release nearer. */
  lemma OnwardGoes<W(!new)>(f: Format<W>, m: Machine<W>)
    requires Inv(f, m) && !m.phase.Unlocked?
    ensures Enabled(f, m, Onward(f, m)) && Closer(Take(f, m, Onward(f, m)), m)
    ensures Tlb.After(Take(f, m, Onward(f, m)).mem, Take(f, m, Onward(f, m)).todo) == Tlb.After(m.mem, m.todo)
  {
    if m.phase.Awaiting? {
      WaitGoesOn(f, m);
      if m.phase.id < CPU_LIMIT && !Enabled(f, m, Await) {
        TargetGoesOn(f, m, m.phase.id);
      }
    }
  }

  /** No critical section gets stuck: from every reachable state the lock can be released with all that it has to do done. */
  lemma {:induction false} Completes<W(!new)>(f: Format<W>, m: Machine<W>) returns (steps: seq<Step<W>>, n: Machine<W>)
    requires Inv(f, m)
    ensures Run(f, m, steps, n) && n.phase.Unlocked? && n.mem == Tlb.After(m.mem, m.todo)
    decreases |m.todo|, Stage(m.phase), Ahead(m.phase), Turns(m)
  {
    if m.phase.Unlocked? {
      steps, n := [], m;
    } else {
      var step := Onward(f, m);
      OnwardGoes(f, m);
      StepKeeps(f, m, step);
      var rest;
      rest, n := Completes(f, Take(f, m, step));
      steps := [step] + rest;
    }
  }

  lemma {:induction false} RunConcat<W(!new)>(f: Format<W>, m: Machine<W>, d: seq<Step<W>>, n: Machine<W>, e: seq<Step<W>>, u: Machine<W>)
    requires Sized(m) && Sized(n) && Run(f, m, d, n) && Run(f, n, e, u)
    ensures Run(f, m, d + e, u)
    decreases |d|
  {
    if d == [] {
      assert d + e == e;
    } else {
      assert (d + e)[1..] == d[1..] + e;
      RunConcat(f, Take(f, m, d[0]), d[1..], n, e, u);
    }
  }

  // ---- The sections of the mapping operations --------------------------------

  ghost predicate Reachable<W(!new)>(f: Format<W>, n: Machine<W>) {
    exists m: Machine<W>, steps: seq<Step<W>> :: Boot(m) && Run(f, m, steps, n)
  }

  /** In whatever reachable state a CPU on `root` takes the lock with tables `before`, these events may be its critical
      section, and the protocol can carry it out: stores, interrupts, acknowledgements and release. That leaves tables
      `after` and every cache in agreement with them. */
  ghost predicate ShootsDown<W(!new)>(f: Format<W>, spaces: set<W>, root: W, before: Memory<W>, events: seq<Tlb.Event<W>>, after: Memory<W>) {
    forall n: Machine<W>, self: Cpu ::
      Sized(n) && Reachable(f, n) && n.phase.Unlocked? && n.mem == before && n.spaces == spaces
      && self in n.active && n.active[self] == root ==>
        Enabled(f, n, Lock(self, events)) && EndsCoherent(f, Take(f, n, Lock(self, events)), after)
  }

  ghost predicate EndsCoherent<W(!new)>(f: Format<W>, n: Machine<W>, after: Memory<W>)
    requires Sized(n)
  {
    exists more: seq<Step<W>>, u: Machine<W> :: Run(f, n, more, u) && u.phase.Unlocked? && u.mem == after && Coherent(f, u)
  }

  lemma SectionShootsDown<W(!new)>(f: Format<W>, spaces: set<W>, root: W, before: Memory<W>, events: seq<Tlb.Event<W>>)
    requires Tlb.Disciplined(f, spaces, before, events) && Tlb.OwnLog(f, root, events) && !f.strict
    ensures ShootsDown(f, spaces, root, before, events, Tlb.After(before, events))
  {
    forall n: Machine<W>, self: Cpu
      | Sized(n) && Reachable(f, n) && n.phase.Unlocked? && n.mem == before && n.spaces == spaces
        && self in n.active && n.active[self] == root
      ensures Enabled(f, n, Lock(self, events)) && EndsCoherent(f, Take(f, n, Lock(self, events)), Tlb.After(before, events))
    {
      SectionEnds(f, n, self, root, events);
    }
  }

  lemma SectionEnds<W(!new)>(f: Format<W>, n: Machine<W>, self: Cpu, root: W, events: seq<Tlb.Event<W>>)
    requires Sized(n) && Reachable(f, n) && n.phase.Unlocked? && self in n.active && n.active[self] == root
    requires Tlb.Disciplined(f, n.spaces, n.mem, events) && Tlb.OwnLog(f, root, events) && !f.strict
    ensures Enabled(f, n, Lock(self, events)) && EndsCoherent(f, Take(f, n, Lock(self, events)), Tlb.After(n.mem, events))
  {
    var m: Machine<W>, steps: seq<Step<W>> :| Boot(m) && Run(f, m, steps, n);
    BootInv(f, m);
    RunKeeps(f, m, steps, n);
    var mid := Take(f, n, Lock(self, events));
    StepKeeps(f, n, Lock(self, events));
    var rest, u := Completes(f, mid);
    var lock: seq<Step<W>> := [Lock(self, events)];
    assert Run(f, n, lock + rest, u);
    RunConcat(f, m, steps, n, lock + rest, u);
    CoherentWhenUnlocked(f, m, steps + (lock + rest), u);
  }
}
