/** The service supervisor: what each message, exit and delayed restart does to the registry, all under one lock. */
module Supervisor {
  import opened Options

  datatype State = Unknown | Stopped | Starting | Running | Stopping | Waiting | Failed

  datatype Service = Service(
    name: string,
    path: Option<string>,
    deps: seq<string>,
    autostart: bool,
    restartOnFailure: bool,
    restartOnSuccess: bool,
    maxAttempts: nat,            // 0 means no limit
    tid: nat,                    // 0 means no process
    state: State,
    registered: bool,
    stopRequested: bool,
    startRequested: bool,
    restartPending: bool,
    generation: nat,
    failures: nat,
    restarts: nat,
    budgetUsed: nat,
    lastExit: nat)

  type Registry = seq<Service>

  const MAX_SERVICES := 16

  /** A delayed restart that has been scheduled and has not yet run. */
  datatype Worker = Worker(service: nat, generation: nat)

  datatype Machine = Machine(reg: Registry, workers: set<Worker>)

  /** How a process ended. */
  datatype Exit = Signaled | Clean | Bad

  /** What the kernel and the C library answer during one step. */
  datatype Answers = Answers(
    spawn: nat -> Option<nat>,   // by service index: the new process, or failure
    memory: bool,                // a restart request can be allocated
    thread: bool,                // a restart thread can be created
    killed: bool)                // a process can be killed

  /** A spawned process has a positive id. */
  ghost predicate Sane(a: Answers) {
    forall i :: a.spawn(i).Some? ==> a.spawn(i).value != 0
  }

  // ---- Looking up ---------------------------------------------------------

  /** The first service with this name. */
  function Find(reg: Registry, name: string): (r: Option<nat>)
    ensures r.Some? ==> r.value < |reg| && reg[r.value].name == name && forall j :: 0 <= j < r.value ==> reg[j].name != name
    ensures r.None? ==> forall j :: 0 <= j < |reg| ==> reg[j].name != name
  {
    FindFrom(reg, name, 0)
  }

  function FindFrom(reg: Registry, name: string, i: nat): (r: Option<nat>)
    requires i <= |reg|
    ensures r.Some? ==> i <= r.value < |reg| && reg[r.value].name == name && forall j :: i <= j < r.value ==> reg[j].name != name
    ensures r.None? ==> forall j :: i <= j < |reg| ==> reg[j].name != name
    decreases |reg| - i
  {
    if i == |reg| then None else if reg[i].name == name then Some(i) else FindFrom(reg, name, i + 1)
  }

  /** The first service whose process is `tid`. */
  function FindTid(reg: Registry, tid: nat, i: nat): (r: Option<nat>)
    requires i <= |reg|
    ensures r.Some? ==> i <= r.value < |reg| && reg[r.value].tid == tid && forall j :: i <= j < r.value ==> reg[j].tid != tid
    ensures r.None? ==> forall j :: i <= j < |reg| ==> reg[j].tid != tid
    decreases |reg| - i
  {
    if i == |reg| then None else if reg[i].tid == tid then Some(i) else FindTid(reg, tid, i + 1)
  }

  predicate Up(reg: Registry, name: string) {
    var i := Find(reg, name);
    i.Some? && reg[i.value].state == Running && reg[i.value].tid != 0
  }

  predicate Ready(reg: Registry, s: Service) {
    forall d :: d in s.deps ==> Up(reg, d)
  }

  // ---- Starting -----------------------------------------------------------

  function Spawned(s: Service, answer: Option<nat>): Service {
    match answer
    case None => s.(tid := 0, registered := false, stopRequested := false, state := Failed)
    case Some(t) => s.(tid := t, registered := false, stopRequested := false, startRequested := false, state := Starting)
  }

  /** A start request for service `i`: spawn it if its dependencies are up, else let it wait. */
  function Requested(reg: Registry, i: nat, answer: Option<nat>): Registry
    requires i < |reg|
  {
    if reg[i].path.None? || reg[i].tid != 0 then reg
    else if !Ready(reg, reg[i]) then reg[i := reg[i].(state := Waiting)]
    else reg[i := Spawned(reg[i], answer)]
  }

  predicate Kickable(s: Service) {
    s.startRequested && s.tid == 0 && !s.stopRequested && s.state in {Waiting, Stopped, Failed}
  }

  /** One pass over the services from `i` on that starts what was asked for and can be started. */
  function Kick(reg: Registry, i: nat, spawn: nat -> Option<nat>): (r: Registry)
    requires i <= |reg|
    ensures |r| == |reg|
    decreases |reg| - i
  {
    if i == |reg| then reg
    else Kick(if Kickable(reg[i]) then Requested(reg, i, spawn(i)) else reg, i + 1, spawn)
  }

  // ---- Restarting ---------------------------------------------------------

  predicate MayRestart(s: Service) {
    && (s.restartOnFailure || s.restartOnSuccess) && !s.restartPending && s.tid == 0
    && (s.maxAttempts == 0 || s.budgetUsed < s.maxAttempts)
  }

  function Scheduled(s: Service, a: Answers): Service {
    if !MayRestart(s) || !a.memory then s
    else s.(generation := s.generation + 1, budgetUsed := s.budgetUsed + 1, restarts := s.restarts + 1, restartPending := a.thread)
  }

  /** The worker that scheduling leaves behind. */
  function NewWorkers(s: Service, i: nat, a: Answers): set<Worker> {
    if MayRestart(s) && a.memory && a.thread then {Worker(i, s.generation + 1)} else {}
  }

  // ---- The steps ----------------------------------------------------------

  /** The service right after its process has ended, before any restart is scheduled. */
  function Ended(s: Service, exit: Exit, status: nat): Service {
    var e := s.(tid := 0, registered := false, lastExit := status);
    if s.stopRequested || exit == Clean then e.(state := Stopped, budgetUsed := 0, startRequested := false)
    else e.(state := Failed, failures := s.failures + 1)
  }

  /** Whether the end of the process calls for a restart. */
  predicate WantsRestart(s: Service, exit: Exit) {
    !s.stopRequested && (exit == Clean ==> s.restartOnSuccess)
  }

  function Reaped(s: Service, exit: Exit, status: nat, a: Answers): Service {
    var e := Ended(s, exit, status);
    (if WantsRestart(s, exit) then Scheduled(e, a) else e).(stopRequested := false)
  }

  function Reap(m: Machine, tid: nat, exit: Exit, status: nat, a: Answers): Machine {
    var i := FindTid(m.reg, tid, 0);
    if i.None? then m.(reg := Kick(m.reg, 0, a.spawn))
    else
      var s := m.reg[i.value];
      var reg := m.reg[i.value := Reaped(s, exit, status, a)];
      var more := if WantsRestart(s, exit) then NewWorkers(Ended(s, exit, status), i.value, a) else {};
      Machine(Kick(reg, 0, a.spawn), m.workers + more)
  }

  function Blank(name: string): Service {
    Service(name, None, [], false, false, false, 0, 0, Unknown, false, false, false, false, 0, 0, 0, 0, 0)
  }

  /** The registry with a service of this name, if there is room. */
  function Ensured(reg: Registry, name: string): (r: (Registry, Option<nat>))
    ensures r.1.Some? ==> r.1.value < |r.0|
  {
    var i := Find(reg, name);
    if i.Some? then (reg, i)
    else if |reg| >= MAX_SERVICES then (reg, None)
    else (reg + [Blank(name)], Some(|reg|))
  }

  function Registered(s: Service, sender: nat): Service {
    s.(tid := sender, registered := true, stopRequested := false, restartPending := false, startRequested := false, state := Running)
  }

  function Register(m: Machine, name: string, sender: nat, a: Answers): Machine {
    var (reg, i) := Ensured(m.reg, name);
    if i.None? then m
    else if reg[i.value].tid != 0 && reg[i.value].tid != sender then m.(reg := reg)
    else m.(reg := Kick(reg[i.value := Registered(reg[i.value], sender)], 0, a.spawn))
  }

  function Cancelled(s: Service): Service {
    if s.restartPending then s.(restartPending := false, generation := s.generation + 1) else s
  }

  function Start(m: Machine, name: string, a: Answers): Machine {
    var i := Find(m.reg, name);
    if i.None? || m.reg[i.value].path.None? then m
    else
      var s := Cancelled(m.reg[i.value]);
      if s.tid != 0 || s.state in {Starting, Running, Stopping} then m.(reg := m.reg[i.value := s])
      else m.(reg := Requested(m.reg[i.value := s.(startRequested := true)], i.value, a.spawn(i.value)))
  }

  function StoppedNow(s: Service): Service {
    if s.tid == 0
    then s.(restartPending := false, generation := s.generation + 1, stopRequested := false, startRequested := false, budgetUsed := 0, state := Stopped)
    else s.(stopRequested := true, restartPending := false, generation := s.generation + 1, startRequested := false, state := Stopping)
  }

  predicate CanStop(s: Service, a: Answers) {
    s.tid == 0 || (s.name != "init" && a.killed)
  }

  function Stop(m: Machine, name: string, a: Answers): Machine {
    var i := Find(m.reg, name);
    if i.None? || !CanStop(m.reg[i.value], a) then m else m.(reg := m.reg[i.value := StoppedNow(m.reg[i.value])])
  }

  predicate Fires(s: Service, generation: nat) {
    s.restartPending && s.generation == generation && s.tid == 0 && !s.stopRequested
  }

  /** A delayed restart runs. */
  function Wake(m: Machine, w: Worker, a: Answers): Machine
    requires w.service < |m.reg|
  {
    var s := m.reg[w.service];
    Machine(
      if !Fires(s, w.generation) then m.reg
      else Requested(m.reg[w.service := s.(restartPending := false, startRequested := true)], w.service, a.spawn(w.service)),
      m.workers - {w})
  }

  datatype Step =
    | DoReap(tid: nat, exit: Exit, status: nat)
    | DoRegister(name: string, sender: nat)
    | DoStart(name: string)
    | DoStop(name: string)
    | DoWake(worker: Worker)

  /** The kernel reports real processes, and only scheduled workers run. */
  ghost predicate Enabled(m: Machine, step: Step, a: Answers) {
    Sane(a) &&
    match step
    case DoReap(tid, _, _) => tid != 0
    case DoRegister(_, sender) => sender != 0
    case DoWake(w) => w in m.workers && w.service < |m.reg|
    case _ => true
  }

  function Take(m: Machine, step: Step, a: Answers): Machine
    requires step.DoWake? ==> step.worker.service < |m.reg|
  {
    match step
    case DoReap(tid, exit, status) => Reap(m, tid, exit, status, a)
    case DoRegister(name, sender) => Register(m, name, sender, a)
    case DoStart(name) => Start(m, name, a)
    case DoStop(name) => Stop(m, name, a)
    case DoWake(w) => Wake(m, w, a)
  }

  // ---- The invariant ------------------------------------------------------

  ghost predicate Sound(s: Service) {
    && (s.tid != 0 <==> s.state in {Starting, Running, Stopping})
    && (s.stopRequested <==> s.state == Stopping)
    && (s.restartPending ==> s.tid == 0 && !s.startRequested)
    && (s.tid != 0 ==> !s.startRequested)
    && (s.state == Waiting ==> s.startRequested)
    && (s.startRequested || s.restartPending || s.restartOnFailure || s.restartOnSuccess ==> s.path.Some?)
    && (s.maxAttempts != 0 ==> s.budgetUsed <= s.maxAttempts)
  }

  ghost predicate AllSound(reg: Registry) {
    forall i :: 0 <= i < |reg| ==> Sound(reg[i])
  }

  /** Nothing waits without reason. */
  ghost predicate NoLostStart(reg: Registry) {
    forall i :: 0 <= i < |reg| && reg[i].state == Waiting ==> !Ready(reg, reg[i])
  }

  ghost predicate WorkersOk(m: Machine) {
    forall w :: w in m.workers ==> w.service < |m.reg| && w.generation <= m.reg[w.service].generation
  }

  ghost predicate Inv(m: Machine) {
    AllSound(m.reg) && NoLostStart(m.reg) && WorkersOk(m)
  }

  // ---- Dependencies -------------------------------------------------------

  /** The two registries list the same services, and none is up in `later` that was not up in `reg`. */
  ghost predicate NotMoreUp(reg: Registry, later: Registry) {
    && |reg| == |later|
    && forall i :: 0 <= i < |reg| ==>
         && later[i].name == reg[i].name && later[i].deps == reg[i].deps
         && (later[i].state == Running && later[i].tid != 0 ==> reg[i].state == Running && reg[i].tid != 0)
  }

  lemma {:induction false} SameNames(reg: Registry, later: Registry, name: string, i: nat)
    requires |reg| == |later| && i <= |reg| && forall j :: 0 <= j < |reg| ==> later[j].name == reg[j].name
    ensures FindFrom(later, name, i) == FindFrom(reg, name, i)
    decreases |reg| - i
  {
    if i < |reg| { SameNames(reg, later, name, i + 1); }
  }

  lemma NotMoreReady(reg: Registry, later: Registry, s: Service)
    requires NotMoreUp(reg, later) && Ready(later, s)
    ensures Ready(reg, s)
  {
    forall d | d in s.deps
      ensures Up(reg, d)
    {
      assert Up(later, d);
      SameNames(reg, later, d, 0);
    }
  }

  /** Changing one service so that nothing new is up keeps the others waiting for a reason. */
  lemma WaitersWait(reg: Registry, i: nat, s: Service)
    requires i < |reg| && NoLostStart(reg) && s.name == reg[i].name && s.deps == reg[i].deps
    requires s.state == Running && s.tid != 0 ==> reg[i].state == Running && reg[i].tid != 0
    requires s.state != Waiting
    ensures NoLostStart(reg[i := s]) && NotMoreUp(reg, reg[i := s])
  {
    var later := reg[i := s];
    forall j | 0 <= j < |later| && later[j].state == Waiting
      ensures !Ready(later, later[j])
    {
      if Ready(later, later[j]) {
        NotMoreReady(reg, later, later[j]);
      }
    }
  }

  /** A start request leaves everything about restarts alone. */
  ghost predicate SameRestarts(reg: Registry, later: Registry) {
    && |reg| == |later|
    && forall i :: 0 <= i < |reg| ==>
         && later[i].generation == reg[i].generation && later[i].restartPending == reg[i].restartPending
         && later[i].budgetUsed == reg[i].budgetUsed && later[i].restarts == reg[i].restarts && later[i].maxAttempts == reg[i].maxAttempts
  }

  lemma RequestKeeps(reg: Registry, i: nat, answer: Option<nat>)
    requires i < |reg| && AllSound(reg) && reg[i].startRequested && (answer.Some? ==> answer.value != 0)
    ensures var r := Requested(reg, i, answer);
      && AllSound(r) && NotMoreUp(reg, r) && SameRestarts(reg, r)
      && (r[i].state == Waiting ==> !Ready(reg, reg[i]))
      && forall j :: 0 <= j < |reg| && j != i ==> r[j] == reg[j]
  {
  }

  ghost predicate NoLostBelow(reg: Registry, n: nat) {
    forall i :: 0 <= i < n && i < |reg| && reg[i].state == Waiting ==> !Ready(reg, reg[i])
  }

  /** One pass is enough: afterwards whatever waits has a dependency that is not up. */
  lemma {:induction false} KickKeeps(reg: Registry, i: nat, spawn: nat -> Option<nat>)
    requires i <= |reg| && AllSound(reg) && NoLostBelow(reg, i)
    requires forall k :: spawn(k).Some? ==> spawn(k).value != 0
    ensures var r := Kick(reg, i, spawn); AllSound(r) && NotMoreUp(reg, r) && SameRestarts(reg, r) && NoLostStart(r)
    decreases |reg| - i
  {
    if i < |reg| {
      var next := if Kickable(reg[i]) then Requested(reg, i, spawn(i)) else reg;
      if Kickable(reg[i]) {
        RequestKeeps(reg, i, spawn(i));
        forall j | 0 <= j < i + 1 && next[j].state == Waiting
          ensures !Ready(next, next[j])
        {
          if Ready(next, next[j]) {
            NotMoreReady(reg, next, next[j]);
            assert Ready(reg, reg[j]);
          }
        }
      }
      KickKeeps(next, i + 1, spawn);
    }
  }

  /** A start request on its own. */
  lemma RequestedKeepsInv(reg: Registry, i: nat, answer: Option<nat>)
    requires i < |reg| && AllSound(reg) && reg[i].startRequested && (answer.Some? ==> answer.value != 0)
    requires forall j :: 0 <= j < |reg| && j != i && reg[j].state == Waiting ==> !Ready(reg, reg[j])
    ensures AllSound(Requested(reg, i, answer)) && NoLostStart(Requested(reg, i, answer)) && SameRestarts(reg, Requested(reg, i, answer))
  {
    var r := Requested(reg, i, answer);
    RequestKeeps(reg, i, answer);
    forall j | 0 <= j < |r| && r[j].state == Waiting
      ensures !Ready(r, r[j])
    {
      if Ready(r, r[j]) {
        NotMoreReady(reg, r, r[j]);
        assert Ready(reg, reg[j]);
      }
    }
  }

  // ---- Every step keeps the invariant -------------------------------------

  lemma ReapedSound(s: Service, exit: Exit, status: nat, a: Answers)
    requires Sound(s) && s.tid != 0
    ensures var r := Reaped(s, exit, status, a);
      Sound(r) && r.name == s.name && r.deps == s.deps && r.state in {Stopped, Failed} && r.generation >= s.generation
  {
    EndedSound(s, exit, status);
  }

  lemma EndedSound(s: Service, exit: Exit, status: nat)
    requires Sound(s) && s.tid != 0
    ensures var e := Ended(s, exit, status);
      && Sound(e.(stopRequested := false)) && e.name == s.name && e.deps == s.deps && e.generation == s.generation
      && e.tid == 0 && e.state in {Stopped, Failed} && !e.startRequested && !e.restartPending
  {
  }

  lemma ReapKeeps(m: Machine, tid: nat, exit: Exit, status: nat, a: Answers)
    requires Inv(m) && Sane(a) && tid != 0
    ensures Inv(Reap(m, tid, exit, status, a))
  {
    var i := FindTid(m.reg, tid, 0);
    if i.None? {
      KickKeeps(m.reg, 0, a.spawn);
    } else {
      var s := m.reg[i.value];
      ReapedSound(s, exit, status, a);
      KickKeeps(m.reg[i.value := Reaped(s, exit, status, a)], 0, a.spawn);
    }
  }

  lemma RegisterKeeps(m: Machine, name: string, sender: nat, a: Answers)
    requires Inv(m) && Sane(a) && sender != 0
    ensures Inv(Register(m, name, sender, a))
  {
    var (reg, i) := Ensured(m.reg, name);
    assert forall j :: 0 <= j < |m.reg| ==> reg[j] == m.reg[j];
    if i.Some? && (reg[i.value].tid == 0 || reg[i.value].tid == sender) {
      KickKeeps(reg[i.value := Registered(reg[i.value], sender)], 0, a.spawn);
    }
  }

  lemma StartKeeps(m: Machine, name: string, a: Answers)
    requires Inv(m) && Sane(a)
    ensures Inv(Start(m, name, a))
  {
    var i := Find(m.reg, name);
    if i.Some? && m.reg[i.value].path.Some? {
      var s := Cancelled(m.reg[i.value]);
      if s.tid != 0 {
        WaitersWait(m.reg, i.value, s);
      } else {
        var asked := s.(startRequested := true);
        var reg := m.reg[i.value := asked];
        forall j | 0 <= j < |reg| && j != i.value && reg[j].state == Waiting
          ensures !Ready(reg, reg[j])
        {
          if Ready(reg, reg[j]) { NotMoreReady(m.reg, reg, reg[j]); }
        }
        RequestKeeps(reg, i.value, a.spawn(i.value));
        RequestedKeepsInv(reg, i.value, a.spawn(i.value));
      }
    }
  }

  lemma StopKeeps(m: Machine, name: string, a: Answers)
    requires Inv(m)
    ensures Inv(Stop(m, name, a))
  {
    var i := Find(m.reg, name);
    if i.Some? && CanStop(m.reg[i.value], a) {
      WaitersWait(m.reg, i.value, StoppedNow(m.reg[i.value]));
    }
  }

  lemma WakeKeeps(m: Machine, w: Worker, a: Answers)
    requires Inv(m) && Sane(a) && w.service < |m.reg|
    ensures Inv(Wake(m, w, a))
  {
    var i, s := w.service, m.reg[w.service];
    if Fires(s, w.generation) {
      var reg := m.reg[i := s.(restartPending := false, startRequested := true)];
      forall j | 0 <= j < |reg| && j != i && reg[j].state == Waiting
        ensures !Ready(reg, reg[j])
      {
        if Ready(reg, reg[j]) { NotMoreReady(m.reg, reg, reg[j]); }
      }
      RequestedKeepsInv(reg, i, a.spawn(i));
    }
  }

  lemma StepKeeps(m: Machine, step: Step, a: Answers)
    requires Inv(m) && Enabled(m, step, a)
    ensures Inv(Take(m, step, a))
  {
    match step
    case DoReap(tid, exit, status) => ReapKeeps(m, tid, exit, status, a);
    case DoRegister(name, sender) => RegisterKeeps(m, name, sender, a);
    case DoStart(name) => StartKeeps(m, name, a);
    case DoStop(name) => StopKeeps(m, name, a);
    case DoWake(w) => WakeKeeps(m, w, a);
  }

  // ---- Restart workers ----------------------------------------------------

  /** The worker can do nothing any more. */
  ghost predicate Dead(m: Machine, w: Worker) {
    w.service < |m.reg| && w.generation <= m.reg[w.service].generation
    && (w.generation != m.reg[w.service].generation || !m.reg[w.service].restartPending)
  }

  lemma DeadDoesNothing(m: Machine, w: Worker, a: Answers)
    requires Dead(m, w)
    ensures Wake(m, w, a).reg == m.reg
  {
  }

  /** At most one outstanding worker of a service can start it. */
  lemma OneWorkerFires(m: Machine, v: Worker, w: Worker)
    requires WorkersOk(m) && v in m.workers && w in m.workers && v.service == w.service && !Dead(m, v) && !Dead(m, w)
    ensures v == w
  {
  }

  /**
   * How one service may change in one step: a pending restart is a new one or the one that
   * was pending, and every restart that is scheduled is paid for out of the budget.
   */
  ghost predicate Moves(s: Service, t: Service, reset: bool) {
    && s.generation <= t.generation && (t.restartPending && t.generation == s.generation ==> s.restartPending)
    && t.maxAttempts == s.maxAttempts && t.restarts >= s.restarts
    && t.budgetUsed == (if reset then 0 else s.budgetUsed) + (t.restarts - s.restarts)
  }

  /** The step gives service `i` its whole budget back. */
  predicate Resets(m: Machine, step: Step, i: nat)
    requires i < |m.reg|
  {
    match step
    case DoReap(tid, exit, _) => FindTid(m.reg, tid, 0) == Some(i) && (m.reg[i].stopRequested || exit == Clean)
    case DoStop(name) => Find(m.reg, name) == Some(i) && m.reg[i].tid == 0
    case _ => false
  }

  lemma ReapedMoves(s: Service, exit: Exit, status: nat, a: Answers)
    ensures Moves(s, Reaped(s, exit, status, a), s.stopRequested || exit == Clean)
  {
  }

  lemma ReapMoves(m: Machine, tid: nat, exit: Exit, status: nat, a: Answers, i: nat)
    requires Inv(m) && Sane(a) && tid != 0 && i < |m.reg|
    ensures var n := Reap(m, tid, exit, status, a);
      |n.reg| == |m.reg| && Moves(m.reg[i], n.reg[i], Resets(m, DoReap(tid, exit, status), i))
  {
    var k := FindTid(m.reg, tid, 0);
    if k.None? {
      KickKeeps(m.reg, 0, a.spawn);
    } else {
      ReapedSound(m.reg[k.value], exit, status, a);
      ReapedMoves(m.reg[k.value], exit, status, a);
      KickKeeps(m.reg[k.value := Reaped(m.reg[k.value], exit, status, a)], 0, a.spawn);
    }
  }

  lemma RegisterMoves(m: Machine, name: string, sender: nat, a: Answers, i: nat)
    requires Inv(m) && Sane(a) && sender != 0 && i < |m.reg|
    ensures var n := Register(m, name, sender, a); |n.reg| >= |m.reg| && Moves(m.reg[i], n.reg[i], false)
  {
    var (reg, k) := Ensured(m.reg, name);
    assert forall j :: 0 <= j < |m.reg| ==> reg[j] == m.reg[j];
    if k.Some? && (reg[k.value].tid == 0 || reg[k.value].tid == sender) {
      KickKeeps(reg[k.value := Registered(reg[k.value], sender)], 0, a.spawn);
    }
  }

  lemma RequestedMoves(reg: Registry, k: nat, answer: Option<nat>, i: nat)
    requires k < |reg| && i < |reg|
    ensures |Requested(reg, k, answer)| == |reg| && Moves(reg[i], Requested(reg, k, answer)[i], false)
  {
  }

  lemma StartMoves(m: Machine, name: string, a: Answers, i: nat)
    requires i < |m.reg|
    ensures |Start(m, name, a).reg| == |m.reg| && Moves(m.reg[i], Start(m, name, a).reg[i], false)
  {
    var k := Find(m.reg, name);
    if k.Some? {
      var asked := m.reg[k.value := Cancelled(m.reg[k.value]).(startRequested := true)];
      RequestedMoves(asked, k.value, a.spawn(k.value), i);
    }
  }

  lemma WakeMoves(m: Machine, w: Worker, a: Answers, i: nat)
    requires i < |m.reg| && w.service < |m.reg|
    ensures |Wake(m, w, a).reg| == |m.reg| && Moves(m.reg[i], Wake(m, w, a).reg[i], false)
  {
    var asked := m.reg[w.service := m.reg[w.service].(restartPending := false, startRequested := true)];
    RequestedMoves(asked, w.service, a.spawn(w.service), i);
  }

  lemma StepMoves(m: Machine, step: Step, a: Answers, i: nat)
    requires Inv(m) && Enabled(m, step, a) && i < |m.reg|
    ensures |Take(m, step, a).reg| >= |m.reg| && Moves(m.reg[i], Take(m, step, a).reg[i], Resets(m, step, i))
  {
    match step
    case DoReap(tid, exit, status) => ReapMoves(m, tid, exit, status, a, i);
    case DoRegister(name, sender) => RegisterMoves(m, name, sender, a, i);
    case DoStart(name) => StartMoves(m, name, a, i);
    case DoStop(name) =>
    case DoWake(w) => WakeMoves(m, w, a, i);
  }

  /** A dead worker never comes back to life. */
  lemma DeadStays(m: Machine, step: Step, a: Answers, w: Worker)
    requires Inv(m) && Enabled(m, step, a) && Dead(m, w)
    ensures Dead(Take(m, step, a), w)
  {
    StepMoves(m, step, a, w.service);
  }

  /** A stop that takes effect, a manual start and a registration leave no worker of the service alive. */
  lemma StopKills(m: Machine, name: string, a: Answers, w: Worker)
    requires Inv(m) && w in m.workers && Find(m.reg, name) == Some(w.service) && CanStop(m.reg[w.service], a)
    ensures Dead(Stop(m, name, a), w)
  {
  }

  lemma StartKills(m: Machine, name: string, a: Answers, w: Worker)
    requires Inv(m) && w in m.workers && Find(m.reg, name) == Some(w.service) && m.reg[w.service].path.Some?
    ensures Dead(Start(m, name, a), w)
  {
  }

  lemma RegisterKills(m: Machine, name: string, sender: nat, a: Answers, w: Worker)
    requires Inv(m) && Sane(a) && sender != 0 && w in m.workers && Find(m.reg, name) == Some(w.service)
    requires m.reg[w.service].tid == 0 || m.reg[w.service].tid == sender
    ensures Dead(Register(m, name, sender, a), w)
  {
    KickKeeps(m.reg[w.service := Registered(m.reg[w.service], sender)], 0, a.spawn);
  }

  // ---- Whole runs ---------------------------------------------------------

  datatype Move = Move(step: Step, answers: Answers)

  ghost predicate Run(m: Machine, moves: seq<Move>, n: Machine)
    decreases |moves|
  {
    if moves == [] then m == n
    else Enabled(m, moves[0].step, moves[0].answers) && Run(Take(m, moves[0].step, moves[0].answers), moves[1..], n)
  }

  ghost predicate NeverResets(m: Machine, moves: seq<Move>, i: nat)
    decreases |moves|
  {
    moves == [] ||
    (Enabled(m, moves[0].step, moves[0].answers) && i < |m.reg| && !Resets(m, moves[0].step, i)
     && NeverResets(Take(m, moves[0].step, moves[0].answers), moves[1..], i))
  }

  lemma {:induction false} RunKeeps(m: Machine, moves: seq<Move>, n: Machine)
    requires Inv(m) && Run(m, moves, n)
    ensures Inv(n)
    decreases |moves|
  {
    if moves != [] {
      StepKeeps(m, moves[0].step, moves[0].answers);
      RunKeeps(Take(m, moves[0].step, moves[0].answers), moves[1..], n);
    }
  }

  /** Once dead, a worker does nothing at any later time. */
  lemma {:induction false} DeadForEver(m: Machine, moves: seq<Move>, n: Machine, w: Worker, a: Answers)
    requires Inv(m) && Run(m, moves, n) && Dead(m, w)
    ensures Dead(n, w) && Wake(n, w, a).reg == n.reg
    decreases |moves|
  {
    if moves == [] {
      DeadDoesNothing(m, w, a);
    } else {
      StepKeeps(m, moves[0].step, moves[0].answers);
      DeadStays(m, moves[0].step, moves[0].answers, w);
      DeadForEver(Take(m, moves[0].step, moves[0].answers), moves[1..], n, w, a);
    }
  }

  /** Between resets of its budget a service is restarted no more often than its limit allows. */
  lemma {:induction false} RestartsBounded(m: Machine, moves: seq<Move>, n: Machine, i: nat)
    requires Inv(m) && Run(m, moves, n) && i < |m.reg| && NeverResets(m, moves, i)
    ensures i < |n.reg| && n.reg[i].maxAttempts == m.reg[i].maxAttempts
    ensures n.reg[i].restarts - m.reg[i].restarts == n.reg[i].budgetUsed - m.reg[i].budgetUsed
    ensures m.reg[i].maxAttempts != 0 ==> n.reg[i].restarts - m.reg[i].restarts <= m.reg[i].maxAttempts - m.reg[i].budgetUsed
    decreases |moves|
  {
    if moves == [] {
      assert Sound(n.reg[i]);
    } else {
      StepKeeps(m, moves[0].step, moves[0].answers);
      StepMoves(m, moves[0].step, moves[0].answers, i);
      RestartsBounded(Take(m, moves[0].step, moves[0].answers), moves[1..], n, i);
    }
  }

  // ---- Boot ---------------------------------------------------------------

  /** A service as the configuration describes it. */
  ghost predicate Configured(s: Service) {
    && s.path.Some? && s.tid == 0 && s.state == Stopped && s.budgetUsed == 0
    && !s.stopRequested && !s.startRequested && !s.restartPending
  }

  /** The autostart pass. */
  function Autostart(reg: Registry, i: nat, spawn: nat -> Option<nat>): (r: Registry)
    requires i <= |reg|
    ensures |r| == |reg|
    decreases |reg| - i
  {
    if i == |reg| then reg
    else
      Autostart(
        if !reg[i].autostart || reg[i].path.None? then reg
        else Requested(reg[i := reg[i].(startRequested := true)], i, spawn(i)),
        i + 1, spawn)
  }

  lemma {:induction false} AutostartKeeps(reg: Registry, i: nat, spawn: nat -> Option<nat>)
    requires i <= |reg| && AllSound(reg) && NoLostStart(reg)
    requires forall k :: spawn(k).Some? ==> spawn(k).value != 0
    requires forall j :: i <= j < |reg| ==> Configured(reg[j])
    ensures AllSound(Autostart(reg, i, spawn)) && NoLostStart(Autostart(reg, i, spawn))
    decreases |reg| - i
  {
    if i < |reg| {
      if reg[i].autostart {
        var asked := reg[i := reg[i].(startRequested := true)];
        forall j | 0 <= j < |asked| && j != i && asked[j].state == Waiting
          ensures !Ready(asked, asked[j])
        {
          if Ready(asked, asked[j]) { NotMoreReady(reg, asked, asked[j]); }
        }
        RequestKeeps(asked, i, spawn(i));
        RequestedKeepsInv(asked, i, spawn(i));
        AutostartKeeps(Requested(asked, i, spawn(i)), i + 1, spawn);
      } else {
        AutostartKeeps(reg, i + 1, spawn);
      }
    }
  }

  /** From boot on, whatever happens, the invariant holds whenever the lock is free. */
  lemma AlwaysSound(config: Registry, a: Answers, moves: seq<Move>, n: Machine)
    requires Sane(a) && forall j :: 0 <= j < |config| ==> Configured(config[j])
    requires Run(Machine(Autostart(config, 0, a.spawn), {}), moves, n)
    ensures Inv(n)
  {
    AutostartKeeps(config, 0, a.spawn);
    RunKeeps(Machine(Autostart(config, 0, a.spawn), {}), moves, n);
  }

  // ---- What the flags do not mean -----------------------------------------

  /** Exactly when the end of a process schedules a restart: the failure flag is not asked for on its own. */
  lemma RestartScheduled(s: Service, exit: Exit, status: nat, a: Answers)
    requires Sound(s) && s.tid != 0
    ensures Reaped(s, exit, status, a).restarts == s.restarts + 1 <==>
      && !s.stopRequested && a.memory && (s.restartOnSuccess || (exit != Clean && s.restartOnFailure))
      && (exit == Clean || s.maxAttempts == 0 || s.budgetUsed < s.maxAttempts)
  {
  }

  /** So a service that asks for a restart after success only is restarted after a failure too. */
  lemma SuccessOnlyIsRestartedOnFailure(path: string, a: Answers)
    requires a.memory
    ensures var s := Blank("x").(path := Some(path), restartOnSuccess := true, tid := 1, state := Running);
      Sound(s) && !s.restartOnFailure && Reaped(s, Bad, 1, a).restarts == 1
  {
  }

  /** A kick pass leaves alone what it may not start. */
  lemma {:induction false} KickSpares(reg: Registry, k: nat, spawn: nat -> Option<nat>, i: nat)
    requires k <= |reg| && i < |reg| && !Kickable(reg[i])
    ensures Kick(reg, k, spawn)[i] == reg[i]
    decreases |reg| - k
  {
    if k < |reg| {
      KickSpares(if Kickable(reg[k]) then Requested(reg, k, spawn(k)) else reg, k + 1, spawn, i);
    }
  }

  /** The step is a registration by the very process that is being stopped as service `i`. */
  predicate RegistersStopped(m: Machine, step: Step, i: nat)
    requires i < |m.reg|
  {
    step.DoRegister? && Find(m.reg, step.name) == Some(i) && step.sender == m.reg[i].tid
  }

  /** A stop that was asked for stays in force or is carried out, whatever happens, except for a registration by the
      process being stopped. */
  lemma StopKept(m: Machine, step: Step, a: Answers, i: nat)
    requires Inv(m) && Enabled(m, step, a) && i < |m.reg| && m.reg[i].stopRequested
    ensures i < |Take(m, step, a).reg|
    ensures Take(m, step, a).reg[i].state in {Stopping, Stopped} <==> !RegistersStopped(m, step, i)
  {
    assert Sound(m.reg[i]);
    match step
    case DoReap(tid, exit, status) => ReapStopped(m, tid, exit, status, a, i);
    case DoRegister(name, sender) => RegisterStopped(m, name, sender, a, i);
    case DoStart(_) =>
    case DoStop(_) =>
    case DoWake(_) =>
  }

  lemma ReapStopped(m: Machine, tid: nat, exit: Exit, status: nat, a: Answers, i: nat)
    requires Inv(m) && tid != 0 && i < |m.reg| && m.reg[i].stopRequested
    ensures i < |Reap(m, tid, exit, status, a).reg| && Reap(m, tid, exit, status, a).reg[i].state in {Stopping, Stopped}
  {
    assert Sound(m.reg[i]);
    var j := FindTid(m.reg, tid, 0);
    var reg := if j.None? then m.reg else m.reg[j.value := Reaped(m.reg[j.value], exit, status, a)];
    KickSpares(reg, 0, a.spawn, i);
  }

  lemma RegisterStopped(m: Machine, name: string, sender: nat, a: Answers, i: nat)
    requires Inv(m) && sender != 0 && i < |m.reg| && m.reg[i].stopRequested
    ensures i < |Register(m, name, sender, a).reg|
    ensures Register(m, name, sender, a).reg[i].state in {Stopping, Stopped} <==> !RegistersStopped(m, DoRegister(name, sender), i)
  {
    assert Sound(m.reg[i]);
    var (reg, j) := Ensured(m.reg, name);
    if j.Some? && (reg[j.value].tid == 0 || reg[j.value].tid == sender) {
      KickSpares(reg[j.value := Registered(reg[j.value], sender)], 0, a.spawn, i);
    }
  }

  /** So a process that registers while it is being stopped is taken to run on. */
  lemma LateRegisterUndoesStop(tid: nat, a: Answers)
    requires tid != 0 && Sane(a)
    ensures var s := Blank("x").(tid := tid, state := Stopping, stopRequested := true);
      var m := Machine([s], {});
      && Inv(m) && Register(m, "x", tid, a).reg == [s.(registered := true, stopRequested := false, state := Running)]
  {
    var s := Blank("x").(tid := tid, state := Stopping, stopRequested := true);
    var m := Machine([s], {});
    assert Find([s], "x") == Some(0);
    KickSpares([Registered(s, tid)], 0, a.spawn, 0);
    assert [s][0 := Registered(s, tid)] == [Registered(s, tid)];
  }

  /** Process ids are not unique: one process may register under two names. */
  lemma OneTidTwoServices(tid: nat, a: Answers)
    requires tid != 0
    ensures var m := Register(Register(Machine([], {}), "a", tid, a), "b", tid, a);
      |m.reg| == 2 && m.reg[0].tid == tid && m.reg[1].tid == tid
  {
    var first, second := Registered(Blank("a"), tid), Registered(Blank("b"), tid);
    assert Kick([first], 0, a.spawn) == Kick([first], 1, a.spawn) == [first];
    assert [] + [Blank("a")] == [Blank("a")] && [Blank("a")][0 := first] == [first];
    assert Find([first], "b") == FindFrom([first], "b", 1) == None by { assert "a"[0] != "b"[0]; }
    assert [first] + [Blank("b")] == [first, Blank("b")] && [first, Blank("b")][1 := second] == [first, second];
    assert Kick([first, second], 0, a.spawn) == Kick([first, second], 1, a.spawn) == Kick([first, second], 2, a.spawn);
  }

  /** No process is known under two names. */
  ghost predicate OneName(reg: Registry) {
    forall i, j :: 0 <= i < j < |reg| && reg[i].tid != 0 ==> reg[i].tid != reg[j].tid
  }

  /** The kernel gives new processes ids of their own. */
  ghost predicate NewIds(reg: Registry, spawn: nat -> Option<nat>, from: nat) {
    && (forall k, j :: from <= k && spawn(k).Some? && 0 <= j < |reg| ==> spawn(k).value != reg[j].tid)
    && (forall k, l :: from <= k < l && spawn(k).Some? && spawn(l).Some? ==> spawn(k).value != spawn(l).value)
  }

  lemma {:induction false} KickNames(reg: Registry, i: nat, spawn: nat -> Option<nat>)
    requires i <= |reg| && NewIds(reg, spawn, i)
    ensures OneName(Kick(reg, i, spawn)) <==> OneName(reg)
    decreases |reg| - i
  {
    if i < |reg| {
      var next := if Kickable(reg[i]) then Requested(reg, i, spawn(i)) else reg;
      SpawnNames(reg, i, next, spawn);
      KickNames(next, i + 1, spawn);
    }
  }

  lemma SpawnNames(reg: Registry, i: nat, next: Registry, spawn: nat -> Option<nat>)
    requires i < |reg| && NewIds(reg, spawn, i) && next == if Kickable(reg[i]) then Requested(reg, i, spawn(i)) else reg
    ensures NewIds(next, spawn, i + 1) && (OneName(next) <==> OneName(reg))
  {
    assert forall j :: 0 <= j < |reg| && j != i ==> next[j] == reg[j];
    if !OneName(reg) {
      var j, k :| 0 <= j < k < |reg| && reg[j].tid != 0 && reg[j].tid == reg[k].tid;
      assert next[j].tid == reg[j].tid && next[k].tid == reg[k].tid;
    }
  }

  predicate Refused(reg: Registry, name: string, sender: nat) {
    var (r, i) := Ensured(reg, name);
    i.None? || (r[i.value].tid != 0 && r[i.value].tid != sender)
  }

  /** A registration keeps process ids unique exactly if it is refused or no other service has the sender's. */
  lemma RegisterNames(m: Machine, name: string, sender: nat, a: Answers)
    requires OneName(m.reg) && sender != 0 && NewIds(m.reg, a.spawn, 0) && Sane(a)
    requires forall k :: a.spawn(k).Some? ==> a.spawn(k).value != sender
    ensures OneName(Register(m, name, sender, a).reg) <==>
      Refused(m.reg, name, sender) || forall i :: 0 <= i < |m.reg| && m.reg[i].tid == sender ==> Find(m.reg, name) == Some(i)
  {
    var (reg, i) := Ensured(m.reg, name);
    assert OneName(reg);
    if !Refused(m.reg, name, sender) {
      var next := reg[i.value := Registered(reg[i.value], sender)];
      KickNames(next, 0, a.spawn);
      EnteredNames(reg, i.value, sender);
      assert forall j :: 0 <= j < |m.reg| ==> reg[j] == m.reg[j];
      assert Find(m.reg, name).None? ==> i.value == |m.reg| && reg[i.value].tid == 0;
    }
  }

  lemma EnteredNames(reg: Registry, i: nat, sender: nat)
    requires i < |reg| && OneName(reg) && sender != 0
    ensures OneName(reg[i := Registered(reg[i], sender)]) <==> forall j :: 0 <= j < |reg| && reg[j].tid == sender ==> j == i
  {
    var next := reg[i := Registered(reg[i], sender)];
    if j :| 0 <= j < |reg| && reg[j].tid == sender && j != i {
      assert next[j].tid == next[i].tid == sender;
    }
  }

  /** Asking for a start, or dropping a pending restart, does not change whether the dependencies are up. */
  lemma ReadyAnyway(reg: Registry, i: nat, t: Service)
    requires i < |reg| && t.name == reg[i].name && t.deps == reg[i].deps && t.state == reg[i].state && t.tid == reg[i].tid
    ensures Ready(reg[i := t], t) == Ready(reg, reg[i])
  {
    if Ready(reg, reg[i]) { NotMoreReady(reg[i := t], reg, t); }
    if Ready(reg[i := t], t) { NotMoreReady(reg, reg[i := t], t); }
  }

  lemma UpdateTwice(reg: Registry, i: nat, s: Service, t: Service)
    requires i < |reg|
    ensures reg[i := s][i := t] == reg[i := t]
  {
  }

  // ---- The service manager ------------------------------------------------

  datatype StartResult = Started | Deferred | NotStarted

  /** A reply to a control message: its result code, the process and the state. */
  datatype Reply = Ok(tid: nat, state: State) | NoEntry | Busy(tid: nat, state: State) | NotAllowed(tid: nat, state: State) | Fail(tid: nat, state: State)

  class Init {
    var registry: Registry
    var workers: set<Worker>

    ghost function Abs(): Machine
      reads this
    {
      Machine(registry, workers)
    }

    /** Holds whenever the lock is free. */
    ghost predicate Valid()
      reads this
    {
      Inv(Abs())
    }

    constructor (config: Registry, spawn: nat -> Option<nat>)
      requires forall j :: 0 <= j < |config| ==> Configured(config[j])
      requires forall k :: spawn(k).Some? ==> spawn(k).value != 0
      ensures Valid() && Abs() == Machine(Autostart(config, 0, spawn), {})
    {
      registry, workers := config, {};
      new;
      AutostartKeeps(config, 0, spawn);
      StartAutostartServices(spawn);
    }

    method StartAutostartServices(spawn: nat -> Option<nat>)
      modifies this`registry
      ensures registry == Autostart(old(registry), 0, spawn)
    {
      var i := 0;
      while i < |registry|
        invariant 0 <= i <= |registry|
        invariant Autostart(registry, i, spawn) == Autostart(old(registry), 0, spawn)
        decreases |registry| - i
      {
        if registry[i].autostart && registry[i].path.Some? {
          registry := registry[i := registry[i].(startRequested := true)];
          var _ := RequestStart(i, spawn(i));
        }
        i := i + 1;
      }
    }

    method FindService(name: string) returns (r: Option<nat>)
      ensures r == Find(registry, name)
    {
      var i := 0;
      while i < |registry|
        invariant 0 <= i <= |registry| && FindFrom(registry, name, i) == Find(registry, name)
      {
        if registry[i].name == name { return Some(i); }
        i := i + 1;
      }
      r := None;
    }

    method FindProcess(tid: nat) returns (r: Option<nat>)
      ensures r == FindTid(registry, tid, 0)
    {
      var i := 0;
      while i < |registry|
        invariant 0 <= i <= |registry| && FindTid(registry, tid, i) == FindTid(registry, tid, 0)
      {
        if registry[i].tid == tid { return Some(i); }
        i := i + 1;
      }
      r := None;
    }

    method DependenciesReady(s: Service) returns (ready: bool)
      ensures ready == Ready(registry, s)
    {
      var k := 0;
      while k < |s.deps|
        invariant 0 <= k <= |s.deps| && forall j :: 0 <= j < k ==> Up(registry, s.deps[j])
      {
        var dep := FindService(s.deps[k]);
        if dep.None? || registry[dep.value].state != Running || registry[dep.value].tid == 0 {
          assert s.deps[k] in s.deps && !Up(registry, s.deps[k]);
          return false;
        }
        k := k + 1;
      }
      ready := true;
    }

    method SpawnService(i: nat, answer: Option<nat>) returns (ok: bool)
      requires i < |registry| && registry[i].path.Some?
      modifies this`registry
      ensures registry == old(registry)[i := Spawned(old(registry)[i], answer)] && ok == answer.Some?
    {
      var s := registry[i];
      if answer.None? {
        registry := registry[i := s.(tid := 0, registered := false, stopRequested := false, state := Failed)];
        return false;
      }
      registry := registry[i := s.(tid := answer.value, registered := false, stopRequested := false, startRequested := false, state := Starting)];
      ok := true;
    }

    method RequestStart(i: nat, answer: Option<nat>) returns (result: StartResult)
      requires i < |registry|
      modifies this`registry
      ensures registry == Requested(old(registry), i, answer)
      ensures result == Deferred ==> registry[i].state == Waiting
      ensures result == NotStarted <==> old(registry)[i].path.None? || (registry[i].state == Failed && answer.None? && old(registry)[i].tid == 0 && Ready(old(registry), old(registry)[i]))
      ensures result == Started && old(registry)[i].tid == 0 ==> answer == Some(registry[i].tid) && registry[i].state == Starting
    {
      if registry[i].path.None? { return NotStarted; }
      if registry[i].tid != 0 { return Started; }
      var ready := DependenciesReady(registry[i]);
      if !ready {
        registry := registry[i := registry[i].(state := Waiting)];
        return Deferred;
      }
      var ok := SpawnService(i, answer);
      result := if ok then Started else NotStarted;
    }

    method KickPendingServices(spawn: nat -> Option<nat>)
      modifies this`registry
      ensures registry == Kick(old(registry), 0, spawn)
    {
      var i := 0;
      while i < |registry|
        invariant 0 <= i <= |registry| && Kick(registry, i, spawn) == Kick(old(registry), 0, spawn)
        decreases |registry| - i
      {
        if Kickable(registry[i]) {
          var _ := RequestStart(i, spawn(i));
        }
        i := i + 1;
      }
    }

    method ScheduleRestart(i: nat, a: Answers)
      requires i < |registry|
      modifies this
      ensures registry == old(registry)[i := Scheduled(old(registry)[i], a)]
      ensures workers == old(workers) + NewWorkers(old(registry)[i], i, a)
    {
      var s := registry[i];
      if !s.restartOnFailure && !s.restartOnSuccess { return; }
      if s.restartPending || s.tid != 0 { return; }
      if s.maxAttempts != 0 && s.budgetUsed >= s.maxAttempts { return; }
      if !a.memory { return; }
      var request := Worker(i, s.generation + 1);
      registry := registry[i := s.(generation := s.generation + 1, restartPending := true, budgetUsed := s.budgetUsed + 1, restarts := s.restarts + 1)];
      if a.thread {
        workers := workers + {request};
      } else {
        registry := registry[i := registry[i].(restartPending := false)];
      }
    }

    /** A child process has ended. */
    method ReapChild(tid: nat, exit: Exit, status: nat, a: Answers)
      requires Valid() && Sane(a) && tid != 0
      modifies this
      ensures Valid() && Abs() == Reap(old(Abs()), tid, exit, status, a)
    {
      ReapKeeps(Abs(), tid, exit, status, a);
      var found := FindProcess(tid);
      if found.Some? {
        EndService(found.value, exit, status, a);
      }
      KickPendingServices(a.spawn);
    }

    method EndService(i: nat, exit: Exit, status: nat, a: Answers)
      requires i < |registry|
      modifies this
      ensures registry == old(registry)[i := Reaped(old(registry)[i], exit, status, a)]
      ensures workers == old(workers) + (if WantsRestart(old(registry)[i], exit) then NewWorkers(Ended(old(registry)[i], exit, status), i, a) else {})
    {
      var s := registry[i];
      var e := s.(tid := 0, registered := false, lastExit := status);
      if s.stopRequested {
        registry := registry[i := e.(state := Stopped, budgetUsed := 0, startRequested := false)];
      } else if exit == Clean {
        registry := registry[i := e.(state := Stopped, budgetUsed := 0, startRequested := false)];
        if s.restartOnSuccess { ScheduleRestart(i, a); }
      } else {
        registry := registry[i := e.(state := Failed, failures := s.failures + 1)];
        ScheduleRestart(i, a);
      }
      registry := registry[i := registry[i].(stopRequested := false)];
    }

    method HandleRegister(name: string, sender: nat, a: Answers) returns (reply: Reply)
      requires Valid() && Sane(a) && sender != 0
      modifies this
      ensures Valid() && Abs() == Register(old(Abs()), name, sender, a)
      ensures reply.Fail? <==> Find(old(registry), name).None? && |old(registry)| >= MAX_SERVICES
      ensures reply.Busy? <==> Find(old(registry), name).Some? && old(registry)[Find(old(registry), name).value].tid !in {0, sender}
      ensures reply.Busy? ==> var s := old(registry)[Find(old(registry), name).value]; reply == Busy(s.tid, s.state)
      ensures !reply.Fail? && !reply.Busy? ==> reply == Ok(sender, Running)
    {
      RegisterKeeps(Abs(), name, sender, a);
      var found := FindService(name);
      if found.None? {
        if |registry| >= MAX_SERVICES { return Fail(0, Failed); }
        registry, found := registry + [Blank(name)], Some(|registry|);
      }
      var i := found.value;
      if registry[i].tid != 0 && registry[i].tid != sender { return Busy(registry[i].tid, registry[i].state); }
      registry := registry[i := Registered(registry[i], sender)];
      reply := Ok(sender, Running);
      KickPendingServices(a.spawn);
    }

    method HandleStart(name: string, a: Answers) returns (reply: Reply)
      requires Valid() && Sane(a)
      modifies this
      ensures Valid() && Abs() == Start(old(Abs()), name, a)
      ensures reply.NoEntry? <==> Find(old(registry), name).None? || old(registry)[Find(old(registry), name).value].path.None?
      ensures |registry| == |old(registry)| && !reply.NotAllowed?
      ensures !reply.NoEntry? ==>
        var i := Find(old(registry), name).value; var s, t := old(registry)[i], registry[i];
        && (reply.Busy? <==> s.tid != 0) && (reply.Busy? ==> reply == Busy(s.tid, s.state))
        && (reply.Fail? <==> s.tid == 0 && Ready(old(registry), s) && a.spawn(i).None?) && (reply.Fail? ==> reply == Fail(0, Failed))
        && (reply.Ok? ==> reply == Ok(t.tid, t.state) && t.state == if Ready(old(registry), s) then Starting else Waiting)
    {
      StartKeeps(Abs(), name, a);
      var found := FindService(name);
      if found.None? || registry[found.value].path.None? { return NoEntry; }
      var i := found.value;
      CancelRestart(i);
      if registry[i].tid != 0 || registry[i].state in {Starting, Running, Stopping} { return Busy(registry[i].tid, registry[i].state); }
      UpdateTwice(old(registry), i, registry[i], registry[i].(startRequested := true));
      ReadyAnyway(old(registry), i, registry[i].(startRequested := true));
      reply := StartNow(i, a.spawn(i));
    }

    /** A restart that is pending is off. */
    method CancelRestart(i: nat)
      requires i < |registry|
      modifies this`registry
      ensures registry == old(registry)[i := Cancelled(old(registry)[i])]
    {
      if registry[i].restartPending {
        registry := registry[i := registry[i].(restartPending := false, generation := registry[i].generation + 1)];
      }
    }

    method StartNow(i: nat, answer: Option<nat>) returns (reply: Reply)
      requires i < |registry| && registry[i].path.Some? && registry[i].tid == 0
      modifies this`registry
      ensures registry == Requested(old(registry)[i := old(registry)[i].(startRequested := true)], i, answer)
      ensures var reg := old(registry)[i := old(registry)[i].(startRequested := true)];
        reply == if Ready(reg, reg[i]) && answer.None? then Fail(0, Failed) else Ok(registry[i].tid, registry[i].state)
    {
      registry := registry[i := registry[i].(startRequested := true)];
      var result := RequestStart(i, answer);
      reply := if result == NotStarted then Fail(0, registry[i].state) else Ok(registry[i].tid, registry[i].state);
    }

    method HandleStop(name: string, a: Answers) returns (reply: Reply)
      requires Valid()
      modifies this
      ensures Valid() && Abs() == Stop(old(Abs()), name, a)
      ensures reply.NoEntry? <==> Find(old(registry), name).None?
      ensures !reply.Busy?
      ensures !reply.NoEntry? ==>
        var s := old(registry)[Find(old(registry), name).value];
        && (reply.Ok? <==> CanStop(s, a)) && (reply.Ok? ==> reply == Ok(s.tid, if s.tid == 0 then Stopped else Stopping))
        && (reply.NotAllowed? <==> s.tid != 0 && s.name == "init") && (reply.NotAllowed? ==> reply == NotAllowed(s.tid, s.state))
        && (reply.Fail? <==> s.tid != 0 && s.name != "init" && !a.killed) && (reply.Fail? ==> reply == Fail(s.tid, s.state))
    {
      StopKeeps(Abs(), name, a);
      var found := FindService(name);
      if found.None? { return NoEntry; }
      var i := found.value;
      var s := registry[i];
      if s.tid == 0 {
        registry := registry[i := s.(restartPending := false, generation := s.generation + 1, stopRequested := false, startRequested := false, budgetUsed := 0, state := Stopped)];
        return Ok(0, Stopped);
      }
      if s.name == "init" { return NotAllowed(s.tid, s.state); }
      if !a.killed { return Fail(s.tid, s.state); }
      registry := registry[i := s.(stopRequested := true, restartPending := false, generation := s.generation + 1, startRequested := false, state := Stopping)];
      reply := Ok(s.tid, Stopping);
    }

    /** A delayed restart thread reaches the lock. */
    method RestartWorker(w: Worker, a: Answers)
      requires Valid() && Sane(a) && w in workers
      modifies this
      ensures Valid() && Abs() == Wake(old(Abs()), w, a)
    {
      WakeKeeps(Abs(), w, a);
      workers := workers - {w};
      var s := registry[w.service];
      if !s.restartPending || s.generation != w.generation || s.tid != 0 || s.stopRequested { return; }
      registry := registry[w.service := s.(restartPending := false, startRequested := true)];
      var _ := RequestStart(w.service, a.spawn(w.service));
    }
  }
}
