/**
 * Mutexes, condition variables and read-write locks over futexes, for any number of threads.
 *
 * Every step is one atomic access to shared memory or one futex call. A futex wait compares
 * the word and enrols the caller in one step; a sleeper may also be woken for no reason.
 */
module Threads {
  import opened Options

  type Tid = nat
  type Id = nat          // of a mutex, a condition variable or a read-write lock

  /** What a thread does once it has taken, or given back, a mutex. */
  datatype Next =
    | Return
    | Sleep(cond: Id, captured: nat, mutex: Id)
    | TryRead(lock: Id)
    | TryWrite(lock: Id)
    | EndLock(lock: Id)

  datatype Pc =
    | Idle
    // taking a mutex
    | Locking(m: Id, next: Next)
    | WantWait(m: Id, next: Next)
    | Asleep(m: Id, next: Next)
    // giving it back
    | Unlocking(m: Id, next: Next)
    | Waking(m: Id, next: Next)
    // waiting on a condition and signalling it
    | Captured(c: Id, captured: nat, mutex: Id)
    | CondWait(c: Id, captured: nat, mutex: Id)
    | CondAsleep(c: Id, captured: nat, mutex: Id)
    | CondWaking(c: Id, all: bool, value: nat)
    // inside a read-write lock, whose mutex has the lock's id
    | ReadTest(lock: Id)
    | ReadAdd(lock: Id)
    | WriteTest(lock: Id)
    | WriteSet(lock: Id)
    | Release(lock: Id)

  datatype Thread = Thread(pc: Pc, held: set<Id>)

  /** A read-write lock's fields, and who holds it: the last two are history. */
  datatype RwLock = RwLock(readers: nat, writer: nat, reading: multiset<Tid>, writing: set<Tid>)

  datatype System = System(
    threads: seq<Thread>,
    word: map<Id, nat>,         // mutex words
    sequence: map<Id, nat>,     // condition sequence numbers
    floor: map<Id, nat>,        // history: the sequence number of the last broadcast whose wake is done
    locks: map<Id, RwLock>)

  function At(f: map<Id, nat>, k: Id): nat {
    if k in f then f[k] else 0
  }

  function Lock(s: System, r: Id): RwLock {
    if r in s.locks then s.locks[r] else RwLock(0, 0, multiset{}, {})
  }

  predicate Is(s: System, t: Tid) {
    t < |s.threads|
  }

  function Goto(s: System, t: Tid, pc: Pc): System
    requires Is(s, t)
  {
    s.(threads := s.threads[t := s.threads[t].(pc := pc)])
  }

  // ---- The steps ----------------------------------------------------------

  datatype Step =
    | CallLock(m: Id)
    | CallTryLock(m: Id)
    | CallUnlock(m: Id)
    | CallWait(c: Id, m: Id)
    | CallSignal(c: Id, all: bool)
    | CallRead(r: Id)
    | CallWrite(r: Id)
    | CallEnd(r: Id)
    | Go                        // the next access of the operation under way
    | Wake(who: Option<Tid>)    // a futex wake of one sleeper
    | Interrupt                 // a futex wait ends for no reason

  ghost predicate SleepsOn(s: System, u: Tid, m: Id) {
    Is(s, u) && s.threads[u].pc.Asleep? && s.threads[u].pc.m == m
  }

  ghost predicate SleepsOnCond(s: System, u: Tid, c: Id) {
    Is(s, u) && s.threads[u].pc.CondAsleep? && s.threads[u].pc.c == c
  }

  /** A wake takes a sleeper if there is one. */
  ghost predicate Picks(s: System, pc: Pc, who: Option<Tid>) {
    match pc
    case Waking(m, _) => if who.Some? then SleepsOn(s, who.value, m) else forall u :: !SleepsOn(s, u, m)
    case CondWaking(c, false, _) => if who.Some? then SleepsOnCond(s, who.value, c) else forall u :: !SleepsOnCond(s, u, c)
    case _ => false
  }

  ghost predicate Holds(l: RwLock, t: Tid) {
    t in l.reading || t in l.writing
  }

  /** Callers give back only what they hold. */
  ghost predicate Enabled(s: System, t: Tid, step: Step) {
    Is(s, t) &&
    var pc, held := s.threads[t].pc, s.threads[t].held;
    match step
    case CallUnlock(m) => pc == Idle && m in held
    case CallWait(_, m) => pc == Idle && m in held
    case CallEnd(r) => pc == Idle && Holds(Lock(s, r), t)
    case Go => !pc.Idle? && !pc.Asleep? && !pc.CondAsleep? && !pc.Waking? && !(pc.CondWaking? && !pc.all)
    case Wake(who) => Picks(s, pc, who)
    case Interrupt => pc.Asleep? || pc.CondAsleep? || pc.WantWait?
    case _ => pc == Idle
  }

  /** Where a thread goes on when it has the mutex. */
  function Taken(next: Next): Pc {
    match next
    case TryRead(r) => ReadTest(r)
    case TryWrite(r) => WriteTest(r)
    case EndLock(r) => Release(r)
    case _ => Idle
  }

  /** Where a thread goes on when it has given the mutex back. */
  function Given(next: Next): Pc {
    match next
    case Sleep(c, v, m) => CondWait(c, v, m)
    case TryRead(r) => Locking(r, next)
    case TryWrite(r) => Locking(r, next)
    case _ => Idle
  }

  /** A compare-and-swap of the word from 0 to 1. */
  function Cas(s: System, t: Tid, m: Id, won: Pc, lost: Pc): System
    requires Is(s, t)
  {
    if At(s.word, m) == 0 then s.(word := s.word[m := 1], threads := s.threads[t := Thread(won, s.threads[t].held + {m})])
    else Goto(s, t, lost)
  }

  /** A woken thread takes up where it went to sleep. */
  function Woken(pc: Pc): Pc {
    match pc
    case Asleep(m, next) => Locking(m, next)
    case WantWait(m, next) => Locking(m, next)
    case CondAsleep(_, _, m) => Locking(m, Return)
    case _ => pc
  }

  function WakeOne(s: System, who: Option<Tid>): System {
    if who.Some? && Is(s, who.value) then Goto(s, who.value, Woken(s.threads[who.value].pc)) else s
  }

  function WakeAll(s: System, c: Id): System {
    s.(threads := seq(|s.threads|, u requires 0 <= u < |s.threads| =>
      var th := s.threads[u];
      if th.pc.CondAsleep? && th.pc.c == c then th.(pc := Woken(th.pc)) else th))
  }

  function Max(a: nat, b: nat): nat {
    if a < b then b else a
  }

  predicate InLock(pc: Pc) {
    pc.ReadTest? || pc.ReadAdd? || pc.WriteTest? || pc.WriteSet? || pc.Release?
  }

  function Go1(s: System, t: Tid): System
    requires Is(s, t)
  {
    if InLock(s.threads[t].pc) then GoLock(s, t, s.threads[t].pc)
    else
      match s.threads[t].pc
      case Locking(m, next) => Cas(s, t, m, Taken(next), WantWait(m, next))
      case WantWait(m, next) => Goto(s, t, if At(s.word, m) == 1 then Asleep(m, next) else Locking(m, next))
      case Unlocking(m, next) => Give(s, t, m, next)
      case Captured(c, v, m) => Goto(s, t, Unlocking(m, Sleep(c, v, m)))
      case CondWait(c, v, m) => Goto(s, t, if At(s.sequence, c) == v then CondAsleep(c, v, m) else Locking(m, Return))
      case CondWaking(c, _, v) => Broadcast(s, t, c, v)
      case _ => s
  }

  /** The word is cleared; the wake comes after. */
  function Give(s: System, t: Tid, m: Id, next: Next): System
    requires Is(s, t)
  {
    s.(word := s.word[m := 0], threads := s.threads[t := Thread(Waking(m, next), s.threads[t].held - {m})])
  }

  /** The wake of a broadcast, whose increment made the sequence number `v`. */
  function Broadcast(s: System, t: Tid, c: Id, v: nat): System
    requires Is(s, t)
  {
    Goto(WakeAll(s, c), t, Idle).(floor := s.floor[c := Max(At(s.floor, c), v)])
  }

  /** Where a thread inside a read-write lock goes next: a test that fails gives the mutex back and starts over. */
  function LockPc(l: RwLock, pc: Pc): Pc
    requires InLock(pc)
  {
    var r := pc.lock;
    match pc
    case ReadTest(_) => if l.writer != 0 then Unlocking(r, TryRead(r)) else ReadAdd(r)
    case WriteTest(_) => if l.writer != 0 || l.readers != 0 then Unlocking(r, TryWrite(r)) else WriteSet(r)
    case _ => Unlocking(r, Return)
  }

  /** The lock after the access. */
  function LockStep(l: RwLock, t: Tid, pc: Pc): RwLock {
    match pc
    case ReadAdd(_) => RwLock(l.readers + 1, l.writer, l.reading + multiset{t}, l.writing)
    case WriteSet(_) => RwLock(l.readers, 1, l.reading, l.writing + {t})
    case Release(_) => Released(l, if t in l.writing then l.reading else l.reading - multiset{t}, l.writing - {t})
    case _ => l
  }

  /** The unlock operation does not know whether its caller reads or writes. */
  function Released(l: RwLock, reading: multiset<Tid>, writing: set<Tid>): RwLock {
    if l.writer != 0 then RwLock(l.readers, 0, reading, writing)
    else if l.readers > 0 then RwLock(l.readers - 1, l.writer, reading, writing)
    else RwLock(l.readers, l.writer, reading, writing)
  }

  /** The next access inside a read-write lock. */
  function GoLock(s: System, t: Tid, pc: Pc): System
    requires Is(s, t) && InLock(pc)
  {
    var r, l := pc.lock, Lock(s, pc.lock);
    s.(threads := s.threads[t := s.threads[t].(pc := LockPc(l, pc))], locks := s.locks[r := LockStep(l, t, pc)])
  }

  function Take(s: System, t: Tid, step: Step): System
    requires Is(s, t)
  {
    match step
    case CallLock(m) => Goto(s, t, Locking(m, Return))
    case CallTryLock(m) => Cas(s, t, m, Idle, Idle)
    case CallUnlock(m) => Goto(s, t, Unlocking(m, Return))
    case CallWait(c, m) => Goto(s, t, Captured(c, At(s.sequence, c), m))
    case CallSignal(c, all) =>
      Goto(s, t, CondWaking(c, all, At(s.sequence, c) + 1)).(sequence := s.sequence[c := At(s.sequence, c) + 1])
    case CallRead(r) => Goto(s, t, Locking(r, TryRead(r)))
    case CallWrite(r) => Goto(s, t, Locking(r, TryWrite(r)))
    case CallEnd(r) => Goto(s, t, Locking(r, EndLock(r)))
    case Go => Go1(s, t)
    case Wake(who) => Goto(WakeOne(s, who), t, if s.threads[t].pc.Waking? then Given(s.threads[t].pc.next) else Idle)
    case Interrupt => Goto(s, t, Woken(s.threads[t].pc))
  }

  ghost predicate Run(s: System, moves: seq<(Tid, Step)>, e: System)
    decreases |moves|
  {
    if moves == [] then s == e
    else Enabled(s, moves[0].0, moves[0].1) && Run(Take(s, moves[0].0, moves[0].1), moves[1..], e)
  }

  /** Nothing is held and nobody has begun. */
  ghost predicate Boot(s: System) {
    && (forall t: Tid :: Is(s, t) ==> s.threads[t] == Thread(Idle, {}))
    && s.word == map[] && s.sequence == map[] && s.floor == map[] && s.locks == map[]
  }

  // ---- The mutex ----------------------------------------------------------

  /** The mutex a thread must be holding at this point of its program. */
  function Needs(pc: Pc): Option<Id> {
    match pc
    case Unlocking(m, _) => Some(m)
    case Captured(_, _, m) => Some(m)
    case ReadTest(r) => Some(r)
    case ReadAdd(r) => Some(r)
    case WriteTest(r) => Some(r)
    case WriteSet(r) => Some(r)
    case Release(r) => Some(r)
    case _ => None
  }

  /** Continuations that enter a read-write lock do so on its own mutex. */
  predicate Fits(pc: Pc) {
    match pc
    case Locking(m, next) => FitsNext(m, next)
    case WantWait(m, next) => FitsNext(m, next)
    case Asleep(m, next) => FitsNext(m, next)
    case _ => true
  }

  predicate FitsNext(m: Id, next: Next) {
    match next
    case TryRead(r) => r == m
    case TryWrite(r) => r == m
    case EndLock(r) => r == m
    case _ => true
  }

  /** The thread is at a point where it may be, with the mutexes it has. */
  predicate Placed(th: Thread) {
    Fits(th.pc) && (Needs(th.pc).Some? ==> Needs(th.pc).value in th.held)
  }

  ghost predicate Held(s: System, t: Tid, m: Id) {
    Is(s, t) && m in s.threads[t].held
  }

  /** At most one thread has a mutex, and its word says whether one has. */
  ghost predicate MutexOk(s: System) {
    && (forall t: Tid :: Is(s, t) ==> Placed(s.threads[t]))
    && (forall t: Tid, u: Tid, m: Id :: Held(s, t, m) && Held(s, u, m) ==> t == u)
    && (forall t: Tid, m: Id :: Held(s, t, m) ==> At(s.word, m) == 1)
    && (forall m: Id :: At(s.word, m) != 0 ==> exists t: Tid :: Held(s, t, m))
  }

  /** `e` differs from `s` in where the threads are. */
  ghost predicate OnlyMoved(s: System, e: System) {
    && |e.threads| == |s.threads| && e.word == s.word
    && forall t: Tid :: Is(s, t) ==> e.threads[t].held == s.threads[t].held && Placed(e.threads[t])
  }

  lemma MovedKeeps(s: System, e: System)
    requires MutexOk(s) && OnlyMoved(s, e)
    ensures MutexOk(e)
  {
    assert forall t: Tid, m: Id :: Held(e, t, m) <==> Held(s, t, m);
  }

  /** Thread `t` goes to `pc`; nothing else about threads and words changes. */
  lemma GotoKeeps(s: System, e: System, t: Tid, pc: Pc)
    requires MutexOk(s) && Is(s, t) && e.threads == s.threads[t := s.threads[t].(pc := pc)] && e.word == s.word
    requires Fits(pc) && (Needs(pc).Some? ==> Needs(pc).value in s.threads[t].held)
    ensures MutexOk(e)
  {
    MovedKeeps(s, e);
  }

  lemma CasKeeps(s: System, t: Tid, m: Id, won: Pc, lost: Pc)
    requires MutexOk(s) && Is(s, t) && Placed(s.threads[t].(pc := lost)) && Placed(Thread(won, s.threads[t].held + {m}))
    ensures MutexOk(Cas(s, t, m, won, lost))
  {
    var e := Cas(s, t, m, won, lost);
    if At(s.word, m) == 0 {
      assert forall u: Tid, k: Id :: Held(e, u, k) <==> Held(s, u, k) || (u == t && k == m);
      forall k: Id | At(e.word, k) != 0
        ensures exists u: Tid :: Held(e, u, k)
      {
        if k == m {
          assert Held(e, t, k);
        } else {
          assert At(s.word, k) != 0;
          var u: Tid :| Held(s, u, k);
          assert Held(e, u, k);
        }
      }
    } else {
      GotoKeeps(s, e, t, lost);
    }
  }

  lemma GiveKeeps(s: System, t: Tid)
    requires MutexOk(s) && Is(s, t) && s.threads[t].pc.Unlocking?
    ensures MutexOk(Give(s, t, s.threads[t].pc.m, s.threads[t].pc.next))
  {
    var m, e := s.threads[t].pc.m, Give(s, t, s.threads[t].pc.m, s.threads[t].pc.next);
    assert Held(s, t, m);
    assert forall u: Tid, k: Id :: Held(e, u, k) <==> Held(s, u, k) && !(u == t && k == m);
    forall k: Id | At(e.word, k) != 0
      ensures exists u: Tid :: Held(e, u, k)
    {
      assert At(s.word, k) != 0;
      var u: Tid :| Held(s, u, k);
      assert Held(e, u, k);
    }
  }

  lemma BroadcastKeepsMutex(s: System, t: Tid, c: Id, v: nat)
    requires MutexOk(s) && Is(s, t)
    ensures MutexOk(Broadcast(s, t, c, v))
  {
    MovedKeeps(s, WakeAll(s, c));
    GotoKeeps(WakeAll(s, c), Broadcast(s, t, c, v), t, Idle);
  }

  lemma GoKeepsMutex(s: System, t: Tid)
    requires MutexOk(s) && Enabled(s, t, Go)
    ensures MutexOk(Go1(s, t))
  {
    if InLock(s.threads[t].pc) {
      LockGoKeepsMutex(s, t);
      return;
    }
    var e := Go1(s, t);
    match s.threads[t].pc
    case Locking(m, next) => CasKeeps(s, t, m, Taken(next), WantWait(m, next));
    case Unlocking(_, _) => GiveKeeps(s, t);
    case CondWaking(c, _, v) => BroadcastKeepsMutex(s, t, c, v);
    case WantWait(m, next) => GotoKeeps(s, e, t, if At(s.word, m) == 1 then Asleep(m, next) else Locking(m, next));
    case Captured(c, v, m) => GotoKeeps(s, e, t, Unlocking(m, Sleep(c, v, m)));
    case CondWait(c, v, m) => GotoKeeps(s, e, t, if At(s.sequence, c) == v then CondAsleep(c, v, m) else Locking(m, Return));
    case _ =>
  }

  lemma LockGoKeepsMutex(s: System, t: Tid)
    requires MutexOk(s) && Is(s, t) && InLock(s.threads[t].pc)
    ensures MutexOk(GoLock(s, t, s.threads[t].pc))
  {
    var pc := s.threads[t].pc;
    GotoKeeps(s, GoLock(s, t, pc), t, LockPc(Lock(s, pc.lock), pc));
  }

  lemma WakeKeepsMutex(s: System, t: Tid, who: Option<Tid>)
    requires MutexOk(s) && Enabled(s, t, Wake(who))
    ensures MutexOk(Take(s, t, Wake(who)))
  {
    var e := WakeOne(s, who);
    if who.Some? { GotoKeeps(s, e, who.value, Woken(s.threads[who.value].pc)); }
    GotoKeeps(e, Take(s, t, Wake(who)), t, if s.threads[t].pc.Waking? then Given(s.threads[t].pc.next) else Idle);
  }

  lemma MutexKept(s: System, t: Tid, step: Step)
    requires MutexOk(s) && Enabled(s, t, step)
    ensures MutexOk(Take(s, t, step))
  {
    var e := Take(s, t, step);
    match step
    case CallTryLock(m) => CasKeeps(s, t, m, Idle, Idle);
    case Go => GoKeepsMutex(s, t);
    case Wake(who) => WakeKeepsMutex(s, t, who);
    case _ => GotoKeeps(s, e, t, e.threads[t].pc);
  }

  // ---- No lost wake-up ----------------------------------------------------

  /** The mutex that a thread is about to try, or to wake a sleeper of. */
  function AlertOn(pc: Pc): Option<Id> {
    match pc
    case Locking(m, _) => Some(m)
    case WantWait(m, _) => Some(m)
    case Waking(m, _) => Some(m)
    case _ => None
  }

  ghost predicate Alert(s: System, t: Tid, m: Id) {
    Is(s, t) && AlertOn(s.threads[t].pc) == Some(m)
  }

  /** While a mutex is free and somebody sleeps on it, somebody is about to wake a sleeper or is awake and trying. */
  ghost predicate NoLostWake(s: System) {
    forall m: Id, u: Tid :: SleepsOn(s, u, m) && At(s.word, m) == 0 ==> exists v: Tid :: Alert(s, v, m)
  }

  /** A thread that moves on does not leave a free mutex unattended. */
  lemma GotoAttends(s: System, e: System, t: Tid, pc: Pc)
    requires NoLostWake(s) && Is(s, t) && e.threads == s.threads[t := s.threads[t].(pc := pc)] && e.word == s.word
    requires pc.Asleep? ==> At(s.word, pc.m) != 0
    requires var m := AlertOn(s.threads[t].pc);
      m.Some? && At(s.word, m.value) == 0 ==> AlertOn(pc) == m || forall u: Tid :: SleepsOn(s, u, m.value) ==> exists v: Tid :: v != t && Alert(s, v, m.value)
    ensures NoLostWake(e)
  {
    forall m: Id, u: Tid | SleepsOn(e, u, m) && At(e.word, m) == 0
      ensures exists v: Tid :: Alert(e, v, m)
    {
      assert u != t && SleepsOn(s, u, m);
      if Alert(s, t, m) && AlertOn(pc) != Some(m) {
        var v: Tid :| v != t && Alert(s, v, m);
        assert Alert(e, v, m);
      } else {
        var v: Tid :| Alert(s, v, m);
        assert Alert(e, v, m);
      }
    }
  }

  lemma CasAttends(s: System, t: Tid, m: Id, won: Pc, lost: Pc)
    requires NoLostWake(s) && Is(s, t) && !won.Asleep? && !lost.Asleep?
    requires AlertOn(s.threads[t].pc) == None || (AlertOn(s.threads[t].pc) == Some(m) && AlertOn(lost) == Some(m))
    ensures NoLostWake(Cas(s, t, m, won, lost))
  {
    var e := Cas(s, t, m, won, lost);
    if At(s.word, m) == 0 {
      forall k: Id, u: Tid | SleepsOn(e, u, k) && At(e.word, k) == 0
        ensures exists v: Tid :: Alert(e, v, k)
      {
        assert SleepsOn(s, u, k) && k != m;
        var v: Tid :| Alert(s, v, k);
        assert Alert(e, v, k);
      }
    } else {
      GotoAttends(s, e, t, lost);
    }
  }

  lemma GiveAttends(s: System, t: Tid, m: Id, next: Next)
    requires NoLostWake(s) && Is(s, t) && s.threads[t].pc.Unlocking?
    ensures NoLostWake(Give(s, t, m, next))
  {
    var e := Give(s, t, m, next);
    assert Alert(e, t, m);
    forall k: Id, u: Tid | SleepsOn(e, u, k) && At(e.word, k) == 0
      ensures exists v: Tid :: Alert(e, v, k)
    {
      if k != m {
        assert SleepsOn(s, u, k);
        var v: Tid :| Alert(s, v, k);
        assert Alert(e, v, k);
      }
    }
  }

  lemma BroadcastAttends(s: System, t: Tid, c: Id, v: nat)
    requires NoLostWake(s) && Is(s, t) && s.threads[t].pc.CondWaking?
    ensures NoLostWake(Broadcast(s, t, c, v))
  {
    var e := Broadcast(s, t, c, v);
    forall m: Id, u: Tid | SleepsOn(e, u, m) && At(e.word, m) == 0
      ensures exists w: Tid :: Alert(e, w, m)
    {
      assert SleepsOn(s, u, m);
      var w: Tid :| Alert(s, w, m);
      assert Alert(e, w, m);
    }
  }

  lemma WakeAttends(s: System, t: Tid, who: Option<Tid>)
    requires NoLostWake(s) && Enabled(s, t, Wake(who))
    ensures NoLostWake(Take(s, t, Wake(who)))
  {
    var pc := s.threads[t].pc;
    var e := WakeOne(s, who);
    if who.Some? {
      GotoAttends(s, e, who.value, Woken(s.threads[who.value].pc));
      assert pc.Waking? ==> who.value != t && Alert(e, who.value, pc.m);
    }
    GotoAttends(e, Take(s, t, Wake(who)), t, if pc.Waking? then Given(pc.next) else Idle);
  }

  lemma GoAttends(s: System, t: Tid)
    requires NoLostWake(s) && Enabled(s, t, Go)
    ensures NoLostWake(Go1(s, t))
  {
    var e, pc := Go1(s, t), s.threads[t].pc;
    if InLock(pc) {
      GotoAttends(s, e, t, LockPc(Lock(s, pc.lock), pc));
      return;
    }
    match pc
    case Locking(m, next) => CasAttends(s, t, m, Taken(next), WantWait(m, next));
    case Unlocking(m, next) => GiveAttends(s, t, m, next);
    case CondWaking(c, _, v) => BroadcastAttends(s, t, c, v);
    case WantWait(m, next) => GotoAttends(s, e, t, if At(s.word, m) == 1 then Asleep(m, next) else Locking(m, next));
    case Captured(c, v, m) => GotoAttends(s, e, t, Unlocking(m, Sleep(c, v, m)));
    case CondWait(c, v, m) => GotoAttends(s, e, t, if At(s.sequence, c) == v then CondAsleep(c, v, m) else Locking(m, Return));
    case _ =>
  }

  lemma WakeKept(s: System, t: Tid, step: Step)
    requires NoLostWake(s) && Enabled(s, t, step)
    ensures NoLostWake(Take(s, t, step))
  {
    var e := Take(s, t, step);
    match step
    case CallTryLock(m) => CasAttends(s, t, m, Idle, Idle);
    case Go => GoAttends(s, t);
    case Wake(who) => WakeAttends(s, t, who);
    case _ => GotoAttends(s, e, t, e.threads[t].pc);
  }

  // ---- Condition variables ------------------------------------------------

  /** Where a thread has, or is about to lose, its place in a condition's queue. */
  ghost predicate CondPlaced(s: System, pc: Pc) {
    match pc
    case CondAsleep(c, v, _) => v >= At(s.floor, c)
    case CondWaking(c, _, v) => v <= At(s.sequence, c)
    case _ => true
  }

  /** Nobody sleeps on a condition with a sequence number from before the last broadcast, and nobody can. */
  ghost predicate CondOk(s: System) {
    && (forall c: Id :: At(s.floor, c) <= At(s.sequence, c))
    && (forall t: Tid :: Is(s, t) ==> CondPlaced(s, s.threads[t].pc))
  }

  /** A thread whose captured number is older than the last broadcast will not fall asleep. */
  lemma CannotFallAsleep(s: System, t: Tid)
    requires CondOk(s) && Is(s, t) && s.threads[t].pc.CondWait? && s.threads[t].pc.captured < At(s.floor, s.threads[t].pc.c)
    ensures !Go1(s, t).threads[t].pc.CondAsleep?
  {
  }

  lemma CondGoto(s: System, e: System, t: Tid, pc: Pc)
    requires CondOk(s) && Is(s, t) && e.threads == s.threads[t := s.threads[t].(pc := pc)]
    requires e.sequence == s.sequence && e.floor == s.floor && CondPlaced(s, pc)
    ensures CondOk(e)
  {
  }

  lemma SignalKeepsCond(s: System, t: Tid, c: Id, all: bool)
    requires CondOk(s) && Is(s, t)
    ensures CondOk(Take(s, t, CallSignal(c, all)))
  {
    var e := Take(s, t, CallSignal(c, all));
    assert forall k: Id :: At(e.sequence, k) >= At(s.sequence, k);
    forall u: Tid | Is(e, u)
      ensures CondPlaced(e, e.threads[u].pc)
    {
      assert u != t ==> e.threads[u] == s.threads[u] && CondPlaced(s, s.threads[u].pc);
    }
  }

  /** After the wake of a broadcast nobody sleeps on the condition. */
  lemma BroadcastKeepsCond(s: System, t: Tid, c: Id, v: nat)
    requires CondOk(s) && Is(s, t) && v <= At(s.sequence, c)
    ensures CondOk(Broadcast(s, t, c, v)) && forall u: Tid :: !SleepsOnCond(Broadcast(s, t, c, v), u, c)
    ensures At(Broadcast(s, t, c, v).floor, c) >= v
  {
    var e := Broadcast(s, t, c, v);
    forall u: Tid | Is(e, u)
      ensures CondPlaced(e, e.threads[u].pc) && !SleepsOnCond(e, u, c)
    {
      assert CondPlaced(s, s.threads[u].pc);
    }
  }

  lemma GoKeepsCond(s: System, t: Tid)
    requires CondOk(s) && Enabled(s, t, Go)
    ensures CondOk(Go1(s, t))
  {
    var e, pc := Go1(s, t), s.threads[t].pc;
    assert CondPlaced(s, pc);
    if InLock(pc) {
      CondGoto(s, e, t, LockPc(Lock(s, pc.lock), pc));
      return;
    }
    match pc
    case Locking(m, next) => CasKeepsCond(s, t, m, Taken(next), WantWait(m, next));
    case Unlocking(m, next) => GiveKeepsCond(s, t, m, next);
    case CondWaking(c, _, v) => BroadcastKeepsCond(s, t, c, v);
    case WantWait(m, next) => CondGoto(s, e, t, if At(s.word, m) == 1 then Asleep(m, next) else Locking(m, next));
    case Captured(c, v, m) => CondGoto(s, e, t, Unlocking(m, Sleep(c, v, m)));
    case CondWait(c, v, m) => CondGoto(s, e, t, if At(s.sequence, c) == v then CondAsleep(c, v, m) else Locking(m, Return));
    case _ =>
  }

  lemma CasKeepsCond(s: System, t: Tid, m: Id, won: Pc, lost: Pc)
    requires CondOk(s) && Is(s, t) && CondPlaced(s, won) && CondPlaced(s, lost)
    ensures CondOk(Cas(s, t, m, won, lost))
  {
  }

  lemma GiveKeepsCond(s: System, t: Tid, m: Id, next: Next)
    requires CondOk(s) && Is(s, t)
    ensures CondOk(Give(s, t, m, next))
  {
  }

  lemma CondKept(s: System, t: Tid, step: Step)
    requires CondOk(s) && Enabled(s, t, step)
    ensures CondOk(Take(s, t, step))
  {
    var e := Take(s, t, step);
    match step
    case CallTryLock(m) => CasKeepsCond(s, t, m, Idle, Idle);
    case CallSignal(c, all) => SignalKeepsCond(s, t, c, all);
    case Go => GoKeepsCond(s, t);
    case Wake(who) =>
      var pc := s.threads[t].pc;
      var w := WakeOne(s, who);
      if who.Some? { CondGoto(s, w, who.value, Woken(s.threads[who.value].pc)); }
      CondGoto(w, e, t, if pc.Waking? then Given(pc.next) else Idle);
    case _ => CondGoto(s, e, t, e.threads[t].pc);
  }

  // ---- Read-write locks ---------------------------------------------------

  /** Readers are counted, and a writer is alone. */
  ghost predicate LockOk(l: RwLock) {
    && l.readers == |l.reading| && (l.writer != 0 <==> l.writing != {})
    && (forall t, u :: t in l.writing && u in l.writing ==> t == u)
    && (l.writing != {} ==> l.reading == multiset{})
  }

  /** What a thread has just seen still holds, because it has the mutex. */
  ghost predicate SawRight(l: RwLock, t: Tid, pc: Pc) {
    match pc
    case ReadAdd(_) => l.writer == 0
    case WriteSet(_) => l.writer == 0 && l.readers == 0
    case Release(_) => Holds(l, t)
    case Locking(_, EndLock(_)) => Holds(l, t)
    case WantWait(_, EndLock(_)) => Holds(l, t)
    case Asleep(_, EndLock(_)) => Holds(l, t)
    case _ => true
  }

  /** The lock that the thread's next access concerns. */
  function LockAt(pc: Pc): Option<Id> {
    match pc
    case ReadAdd(r) => Some(r)
    case WriteSet(r) => Some(r)
    case Release(r) => Some(r)
    case Locking(_, EndLock(r)) => Some(r)
    case WantWait(_, EndLock(r)) => Some(r)
    case Asleep(_, EndLock(r)) => Some(r)
    case _ => None
  }

  ghost predicate LocksOk(s: System) {
    && (forall r: Id :: LockOk(Lock(s, r)))
    && (forall t: Tid :: Is(s, t) && LockAt(s.threads[t].pc).Some? ==> SawRight(Lock(s, LockAt(s.threads[t].pc).value), t, s.threads[t].pc))
  }

  lemma LockStepKeeps(l: RwLock, t: Tid, pc: Pc)
    requires LockOk(l) && InLock(pc) && SawRight(l, t, pc)
    ensures LockOk(LockStep(l, t, pc))
  {
  }

  lemma LockGoto(s: System, e: System, t: Tid, th: Thread)
    requires LocksOk(s) && Is(s, t) && e.threads == s.threads[t := th] && e.locks == s.locks
    requires LockAt(th.pc).Some? ==> SawRight(Lock(s, LockAt(th.pc).value), t, th.pc)
    ensures LocksOk(e)
  {
    assert forall r: Id :: Lock(e, r) == Lock(s, r);
    forall u: Tid | Is(e, u) && LockAt(e.threads[u].pc).Some?
      ensures SawRight(Lock(e, LockAt(e.threads[u].pc).value), u, e.threads[u].pc)
    {
      assert u != t ==> e.threads[u] == s.threads[u];
    }
  }

  lemma BroadcastKeepsLocks(s: System, t: Tid, c: Id, v: nat)
    requires LocksOk(s) && Is(s, t)
    ensures LocksOk(Broadcast(s, t, c, v))
  {
    var e := Broadcast(s, t, c, v);
    assert forall r: Id :: Lock(e, r) == Lock(s, r);
    forall u: Tid | Is(e, u) && LockAt(e.threads[u].pc).Some?
      ensures SawRight(Lock(e, LockAt(e.threads[u].pc).value), u, e.threads[u].pc)
    {
      assert e.threads[u] == s.threads[u];
    }
  }

  /** An access inside the lock: the other threads are outside, because this one has the mutex. */
  lemma GoLockKeepsLocks(s: System, t: Tid)
    requires MutexOk(s) && LocksOk(s) && Is(s, t) && InLock(s.threads[t].pc)
    ensures LocksOk(GoLock(s, t, s.threads[t].pc))
  {
    var pc := s.threads[t].pc;
    var e, r, l := GoLock(s, t, pc), pc.lock, Lock(s, pc.lock);
    assert SawRight(l, t, pc);
    LockStepKeeps(l, t, pc);
    assert forall k: Id :: Lock(e, k) == if k == r then LockStep(l, t, pc) else Lock(s, k);
    forall u: Tid | Is(e, u) && LockAt(e.threads[u].pc).Some?
      ensures SawRight(Lock(e, LockAt(e.threads[u].pc).value), u, e.threads[u].pc)
    {
      if u != t {
        assert e.threads[u] == s.threads[u];
        if LockAt(s.threads[u].pc) == Some(r) { OtherSeesRight(s, t, u); }
      }
    }
  }

  /** Only one thread is at a place that needs the mutex. */
  lemma OneNeeds(s: System, t: Tid, u: Tid, r: Id)
    requires MutexOk(s) && Is(s, t) && Is(s, u) && Needs(s.threads[t].pc) == Some(r) == Needs(s.threads[u].pc)
    ensures t == u
  {
    assert Placed(s.threads[t]) && Placed(s.threads[u]);
    assert Held(s, t, r);
    assert Held(s, u, r);
  }

  lemma OtherSeesRight(s: System, t: Tid, u: Tid)
    requires MutexOk(s) && LocksOk(s) && Is(s, t) && Is(s, u) && u != t && InLock(s.threads[t].pc)
    requires LockAt(s.threads[u].pc) == Some(s.threads[t].pc.lock)
    ensures var r := s.threads[t].pc.lock; SawRight(LockStep(Lock(s, r), t, s.threads[t].pc), u, s.threads[u].pc)
  {
    var r := s.threads[t].pc.lock;
    if Needs(s.threads[u].pc) == Some(r) {
      OneNeeds(s, t, u, r);
      assert false;
    } else {
      OthersHold(Lock(s, r), t, s.threads[t].pc, u);
    }
  }

  lemma OthersHold(l: RwLock, t: Tid, pc: Pc, u: Tid)
    requires u != t && Holds(l, u)
    ensures Holds(LockStep(l, t, pc), u)
  {
  }

  lemma GoKeepsLocks(s: System, t: Tid)
    requires MutexOk(s) && LocksOk(s) && Enabled(s, t, Go)
    ensures LocksOk(Go1(s, t))
  {
    if InLock(s.threads[t].pc) {
      GoLockKeepsLocks(s, t);
    } else if s.threads[t].pc.CondWaking? {
      BroadcastKeepsLocks(s, t, s.threads[t].pc.c, s.threads[t].pc.value);
    } else {
      PlainGoKeepsLocks(s, t);
    }
  }

  lemma PlainGoKeepsLocks(s: System, t: Tid)
    requires LocksOk(s) && Enabled(s, t, Go) && !InLock(s.threads[t].pc) && !s.threads[t].pc.CondWaking?
    ensures LocksOk(Go1(s, t))
  {
    PlainGo(s, t);
    LockGoto(s, Go1(s, t), t, Go1(s, t).threads[t]);
  }

  lemma PlainGo(s: System, t: Tid)
    requires LocksOk(s) && Enabled(s, t, Go) && !InLock(s.threads[t].pc) && !s.threads[t].pc.CondWaking?
    ensures var e := Go1(s, t); Is(e, t) && e.threads == s.threads[t := e.threads[t]] && e.locks == s.locks
    ensures var pc := Go1(s, t).threads[t].pc; LockAt(pc).Some? ==> SawRight(Lock(s, LockAt(pc).value), t, pc)
  {
  }

  lemma LocksKept(s: System, t: Tid, step: Step)
    requires MutexOk(s) && LocksOk(s) && Enabled(s, t, step)
    ensures LocksOk(Take(s, t, step))
  {
    var e := Take(s, t, step);
    match step
    case Go => GoKeepsLocks(s, t);
    case Wake(who) =>
      var pc := s.threads[t].pc;
      var w := WakeOne(s, who);
      if who.Some? { LockGoto(s, w, who.value, w.threads[who.value]); }
      LockGoto(w, e, t, e.threads[t]);
    case _ => LockGoto(s, e, t, e.threads[t]);
  }

  // ---- Whole runs ---------------------------------------------------------

  ghost predicate Inv(s: System) {
    MutexOk(s) && NoLostWake(s) && CondOk(s) && LocksOk(s)
  }

  lemma {:induction false} RunKeeps(s: System, moves: seq<(Tid, Step)>, e: System)
    requires Inv(s) && Run(s, moves, e)
    ensures Inv(e)
    decreases |moves|
  {
    if moves != [] {
      var (t, step) := moves[0];
      MutexKept(s, t, step);
      WakeKept(s, t, step);
      CondKept(s, t, step);
      LocksKept(s, t, step);
      RunKeeps(Take(s, t, step), moves[1..], e);
    }
  }

  lemma BootKeeps(s: System)
    requires Boot(s)
    ensures Inv(s)
  {
  }

  /** In every run: one holder per mutex. */
  lemma MutualExclusion(s: System, moves: seq<(Tid, Step)>, e: System, t: Tid, u: Tid, m: Id)
    requires Boot(s) && Run(s, moves, e) && Held(e, t, m) && Held(e, u, m)
    ensures t == u
  {
    BootKeeps(s);
    RunKeeps(s, moves, e);
  }

  /** In every run: a free mutex with sleepers has somebody attending to it. */
  lemma NoWakeLost(s: System, moves: seq<(Tid, Step)>, e: System, u: Tid, m: Id)
    requires Boot(s) && Run(s, moves, e) && SleepsOn(e, u, m) && At(e.word, m) == 0
    ensures exists v: Tid :: v != u && Alert(e, v, m)
  {
    BootKeeps(s);
    RunKeeps(s, moves, e);
    var v: Tid :| Alert(e, v, m);
    assert v != u;
  }

  /** In every run: a sleeper on a condition captured its number no earlier than the last completed broadcast. */
  lemma BroadcastReachesAll(s: System, moves: seq<(Tid, Step)>, e: System, u: Tid)
    requires Boot(s) && Run(s, moves, e) && Is(e, u) && e.threads[u].pc.CondAsleep?
    ensures e.threads[u].pc.captured >= At(e.floor, e.threads[u].pc.c)
  {
    BootKeeps(s);
    RunKeeps(s, moves, e);
    assert CondPlaced(e, e.threads[u].pc);
  }

  /** In every run: a writer is alone, and the reader count is the number of read holds. */
  lemma WriterIsAlone(s: System, moves: seq<(Tid, Step)>, e: System, r: Id, t: Tid, u: Tid)
    requires Boot(s) && Run(s, moves, e) && t in Lock(e, r).writing && Holds(Lock(e, r), u)
    ensures t == u && u !in Lock(e, r).reading && Lock(e, r).readers == |Lock(e, r).reading| == 0
  {
    BootKeeps(s);
    RunKeeps(s, moves, e);
    assert LockOk(Lock(e, r));
  }

  lemma ReadersCounted(s: System, moves: seq<(Tid, Step)>, e: System, r: Id)
    requires Boot(s) && Run(s, moves, e)
    ensures Lock(e, r).readers == |Lock(e, r).reading|
  {
    BootKeeps(s);
    RunKeeps(s, moves, e);
    assert LockOk(Lock(e, r));
  }

  // ---- A run that contends ---------------------------------------------------

  lemma {:induction false} RunThen(s: System, moves: seq<(Tid, Step)>, e: System, t: Tid, step: Step)
    requires Run(s, moves, e) && Enabled(e, t, step)
    ensures Run(s, moves + [(t, step)], Take(e, t, step))
    decreases |moves|
  {
    if moves == [] {
      assert [(t, step)][1..] == [];
    } else {
      assert (moves + [(t, step)])[1..] == moves[1..] + [(t, step)];
      RunThen(Take(s, moves[0].0, moves[0].1), moves[1..], e, t, step);
    }
  }

  /** One thread has the mutex and another sleeps on it. */
  lemma Contended(s: System, t: Tid, u: Tid, m: Id) returns (moves: seq<(Tid, Step)>, e: System)
    requires Boot(s) && Is(s, t) && Is(s, u) && t != u
    ensures Run(s, moves, e) && e == System(s.threads[t := Thread(Idle, {m})][u := Thread(Asleep(m, Return), {})], map[m := 1], map[], map[], map[])
  {
    moves, e := [], s;
    moves, e := Extended(s, moves, e, t, CallLock(m));
    moves, e := Extended(s, moves, e, t, Go);
    moves, e := Extended(s, moves, e, u, CallLock(m));
    moves, e := Extended(s, moves, e, u, Go);
    moves, e := Extended(s, moves, e, u, Go);
    assert {} + {m} == {m};
  }

  lemma Extended(s: System, moves: seq<(Tid, Step)>, e: System, t: Tid, step: Step) returns (more: seq<(Tid, Step)>, next: System)
    requires Run(s, moves, e) && Enabled(e, t, step)
    ensures more == moves + [(t, step)] && next == Take(e, t, step) && Run(s, more, next)
  {
    RunThen(s, moves, e, t, step);
    more, next := moves + [(t, step)], Take(e, t, step);
  }

  /** The free mutex with a sleeper does occur, and the sleeper is handed the mutex. */
  lemma HandedOver(s: System, t: Tid, u: Tid, m: Id) returns (moves: seq<(Tid, Step)>, mid: System, more: seq<(Tid, Step)>, e: System)
    requires Boot(s) && Is(s, t) && Is(s, u) && t != u
    ensures Run(s, moves, mid) && SleepsOn(mid, u, m) && At(mid.word, m) == 0
    ensures Run(s, more, e) && Held(e, u, m) && !Held(e, t, m)
  {
    moves, mid := Contended(s, t, u, m);
    moves, mid := Extended(s, moves, mid, t, CallUnlock(m));
    moves, mid := Extended(s, moves, mid, t, Go);
    more, e := Extended(s, moves, mid, t, Wake(Some(u)));
    more, e := Extended(s, more, e, u, Go);
  }
}
