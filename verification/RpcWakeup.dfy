/** The waiting side of the RPC lock of `session.c`: whether a thread that sleeps on the condition variable is woken
    once the lock is free. */
module RpcWakeup {
  import opened CText
  import opened RpcLock

  /** The unlock call goes on without the mutex, although it could not get it. */
  predicate FallsBack(s: State, t: Thread, e: Event) {
    e.Busy? && PcOf(s, t).UnlockWant?
  }

  /** The signal is spent on a wait that has timed out. */
  predicate Wastes(s: State, t: Thread, e: Event) {
    e.Signal? && Expired(PcOf(s, e.woken))
  }

  /** Neither of the two happens in a run. */
  ghost predicate Smooth(run: seq<State>, threads: seq<Thread>, events: seq<Event>)
    requires |run| == |threads| + 1 == |events| + 1
  {
    forall j :: 0 <= j < |events| ==>
      !FallsBack(run[j], threads[j], events[j]) && !Wastes(run[j], threads[j], events[j])
  }

  /** The lock is free, a thread waits for it without a time limit, and no thread is on its way to wake it. */
  ghost predicate Stranded(s: State) {
    && !s.inuse
    && (exists t :: t in s.pcs && s.pcs[t] == LockSleep(Wait))
    && (forall t :: t in s.pcs ==> s.pcs[t].Idle? || s.pcs[t].LockSleep?)
  }

  /** A thread that signals, or that was woken and looks at the flag. */
  predicate Responsible(pc: Pc) {
    pc.UnlockSignal? || (pc.LockWake? && !pc.expired) || pc.LockTest? || pc.LockTake?
  }

  ghost predicate SomeoneResponsible(s: State) {
    exists u :: Responsible(PcOf(s, u))
  }

  ghost predicate Watched(s: State) {
    && (forall t :: PcOf(s, t) != UnlockClear(false) && PcOf(s, t) != UnlockSignal(false))
    && (forall t :: PcOf(s, t).LockAbout? ==> s.inuse)
    && ((exists t :: Asleep(PcOf(s, t))) ==> s.inuse || SomeoneResponsible(s))
  }

  /** A move of a thread that was neither responsible nor owning. */
  lemma BystanderMove(s: State, t: Thread, pc: Pc, mutex: Option<Thread>)
    requires Watched(s) && !Responsible(PcOf(s, t)) && !WithoutMutex(pc)
    requires (Asleep(pc) ==> Asleep(PcOf(s, t)) || s.inuse) && (pc.LockAbout? ==> s.inuse)
    ensures Watched(Goto(s.(mutex := mutex), t, pc))
  {
    var s' := Goto(s.(mutex := mutex), t, pc);
    assert forall u :: u != t ==> PcOf(s', u) == PcOf(s, u);
    if SomeoneResponsible(s) {
      var u :| Responsible(PcOf(s, u));
      assert Responsible(PcOf(s', u));
    }
  }

  predicate WithoutMutex(pc: Pc) {
    pc == UnlockClear(false) || pc == UnlockSignal(false)
  }

  /** A move to a responsible place, or with the flag set. */
  lemma ResponsibleMove(s: State, t: Thread, pc: Pc, mutex: Option<Thread>, inuse: bool)
    requires Watched(s) && !WithoutMutex(pc) && !Asleep(pc) && (Responsible(pc) || inuse) && (pc.LockAbout? ==> inuse)
    requires inuse != s.inuse && !inuse ==> forall u :: u != t ==> !PcOf(s, u).LockAbout?
    ensures Watched(Goto(s.(mutex := mutex, inuse := inuse), t, pc))
  {
    var s' := Goto(s.(mutex := mutex, inuse := inuse), t, pc);
    assert forall u :: u != t ==> PcOf(s', u) == PcOf(s, u);
    assert PcOf(s', t) == pc;
  }

  lemma QuietMove(s: State, t: Thread, pc: Pc)
    requires Watched(s) && NobodySleeps(s) && !WithoutMutex(pc) && !Asleep(pc) && !pc.LockAbout?
    ensures Watched(Goto(s, t, pc))
  {
    var s' := Goto(s, t, pc);
    assert forall u :: u != t ==> PcOf(s', u) == PcOf(s, u);
    assert forall u :: !Asleep(PcOf(s', u));
  }

  lemma NoneAbout(s: State, t: Thread)
    requires Inv(s) && WithMutex(PcOf(s, t))
    ensures forall u :: u != t ==> !PcOf(s, u).LockAbout?
  {
    forall u | u != t ensures !PcOf(s, u).LockAbout? { assert WithMutex(PcOf(s, t)); }
  }

  lemma WatchedFacts(s: State, t: Thread)
    requires Watched(s)
    ensures !WithoutMutex(PcOf(s, t)) && (PcOf(s, t).LockAbout? ==> s.inuse)
  {
  }

  lemma AdvanceKeepsWatch(s: State, t: Thread)
    requires Inv(s) && Watched(s) && Advance(s, t).Some?
    ensures Watched(Advance(s, t).value)
  {
    hide Inv, Watched, NobodySleeps;
    WatchedFacts(s, t);
    match PcOf(s, t)
    case LockPeek => BystanderMove(s, t, if s.inuse then Idle else LockWant(Try), s.mutex);
    case LockWant(m) => BystanderMove(s, t, LockTest(m), Some(t));
    case LockTest(m) =>
      ResponsibleMove(s, t, if !s.inuse then LockTake else if m.Try? then LockDrop else LockAbout(m), s.mutex, s.inuse);
    case LockAbout(m) => BystanderMove(s, t, LockSleep(m), None);
    case LockWake(m, expired) =>
      if expired { BystanderMove(s, t, LockDrop, Some(t)); } else { ResponsibleMove(s, t, LockTest(m), Some(t), s.inuse); }
    case LockDrop => BystanderMove(s, t, Idle, None);
    case LockTake => SetMove(s, t); ResponsibleMove(s, t, LockLeave, s.mutex, true);
    case LockLeave => OwnerSeesFlag(s, t); BystanderMove(s, t, Held, None);
    case UnlockCheck(m) => OwnerSeesFlag(s, t); BystanderMove(s, t, UnlockWant(m), s.mutex);
    case UnlockWant(_) => BystanderMove(s, t, UnlockClear(true), Some(t));
    case UnlockClear(mutex) => NoneAbout(s, t); ResponsibleMove(s, t, UnlockSignal(mutex), s.mutex, false);
    case UnlockSignal(mutex) => QuietMove(s, t, if mutex then UnlockLeave else Idle);
    case UnlockLeave => BystanderMove(s, t, Idle, None);
  }

  lemma NextKeepsWatch(s: State, t: Thread, e: Event)
    requires Inv(s) && Watched(s) && Next(s, t, e).Some? && !FallsBack(s, t, e) && !Wastes(s, t, e)
    ensures Watched(Next(s, t, e).value)
  {
    hide Inv, Watched, Advance;
    WatchedFacts(s, t);
    var pc := PcOf(s, t);
    match e
    case CallLock(m) => BystanderMove(s, t, if m.Try? then LockPeek else LockWant(m), s.mutex);
    case CallUnlock(m) => BystanderMove(s, t, UnlockCheck(m), s.mutex);
    case Proceed => AdvanceKeepsWatch(s, t);
    case Busy => BystanderMove(s, t, Idle, s.mutex);
    case Error => BystanderMove(s, t, if pc.LockWant? then Idle else if pc.LockAbout? then LockDrop else Held, s.mutex);
    case Signal(w) => SignalKeepsWatch(s, t, w);
    case Expire => BystanderMove(s, t, LockWake(Timed, true), s.mutex);
    case Spurious => ResponsibleMove(s, t, LockWake(pc.mode, false), s.mutex, s.inuse);
  }

  lemma SignalKeepsWatch(s: State, t: Thread, w: Thread)
    requires Watched(s) && PcOf(s, t) == UnlockSignal(true) && Asleep(PcOf(s, w))
    ensures Watched(Goto(Goto(s, w, LockWake(PcOf(s, w).mode, false)), t, UnlockLeave))
  {
    var woken := LockWake(PcOf(s, w).mode, false);
    var s' := Goto(Goto(s, w, woken), t, UnlockLeave);
    assert forall u :: u != t && u != w ==> PcOf(s', u) == PcOf(s, u);
    assert Responsible(PcOf(s', w));
  }

  lemma {:induction false} RunKeepsWatch(run: seq<State>, threads: seq<Thread>, events: seq<Event>, i: nat)
    requires IsRun(run, threads, events) && i < |run|
    requires Smooth(run, threads, events)
    ensures Watched(run[i])
  {
    hide Next, FallsBack, Wastes;
    if i > 0 {
      RunKeepsWatch(run, threads, events, i - 1);
      RunKeepsInv(run, threads, events, i - 1);
      assert !FallsBack(run[i - 1], threads[i - 1], events[i - 1]);
      assert Next(run[i - 1], threads[i - 1], events[i - 1]) == Some(run[i - 1 + 1]);
      NextKeepsWatch(run[i - 1], threads[i - 1], events[i - 1]);
    }
  }

  /** A run in which every unlock call gets the mutex and no signal is spent on a wait that has timed out strands no
      waiting thread. */
  lemma NobodyStranded(run: seq<State>, threads: seq<Thread>, events: seq<Event>, i: nat)
    requires IsRun(run, threads, events) && i < |run|
    requires Smooth(run, threads, events)
    ensures !Stranded(run[i])
  {
    hide IsRun, Smooth, Watched, Stranded;
    SmoothLengths(run, threads, events);
    RunKeepsWatch(run, threads, events, i);
    WatchedNotStranded(run[i]);
  }

  lemma SmoothLengths(run: seq<State>, threads: seq<Thread>, events: seq<Event>)
    requires IsRun(run, threads, events)
    ensures |run| == |threads| + 1 == |events| + 1
  {
  }

  lemma WatchedNotStranded(s: State)
    requires Watched(s)
    ensures !Stranded(s)
  {
    if t :| t in s.pcs && s.pcs[t] == LockSleep(Wait) {
      assert Asleep(PcOf(s, t));
      if SomeoneResponsible(s) {
        var u :| Responsible(PcOf(s, u));
        assert u in s.pcs;
      }
    }
  }

  // ----- the timeouts of the calls decide -----

  /** Every unlock call is made with this kind of timeout, and every lock call with one of these. */
  predicate AllUnlocks(events: seq<Event>, m: Mode) {
    forall j :: 0 <= j < |events| && events[j].CallUnlock? ==> events[j].mode == m
  }

  predicate AllLocks(events: seq<Event>, modes: set<Mode>) {
    forall j :: 0 <= j < |events| && events[j].CallLock? ==> events[j].mode in modes
  }

  /** No unlock call under way has a time limit. */
  ghost predicate Patient(s: State) {
    forall t :: PcOf(s, t) != UnlockCheck(Try) && PcOf(s, t) != UnlockCheck(Timed)
             && PcOf(s, t) != UnlockWant(Try) && PcOf(s, t) != UnlockWant(Timed)
  }

  lemma PatientStep(s: State, t: Thread, e: Event)
    requires Patient(s) && Next(s, t, e).Some? && (e.CallUnlock? ==> e.mode == Wait)
    ensures Patient(Next(s, t, e).value) && !FallsBack(s, t, e)
  {
    hide NobodySleeps;
    var s' := Next(s, t, e).value;
    assert forall u :: u != t && (e.Signal? ==> u != e.woken) ==> PcOf(s', u) == PcOf(s, u);
  }

  /** The timeout of the lock call that a thread is in. */
  function LockMode(pc: Pc): Option<Mode> {
    match pc
    case LockPeek => Some(Try)
    case LockWant(m) => Some(m)
    case LockTest(m) => Some(m)
    case LockAbout(m) => Some(m)
    case LockSleep(m) => Some(m)
    case LockWake(m, _) => Some(m)
    case _ => None
  }

  predicate LockModeOk(pc: Pc, modes: set<Mode>) {
    (LockMode(pc).Some? ==> LockMode(pc).value in modes) && (Expired(pc) ==> pc.mode == Timed)
  }

  ghost predicate LockModes(s: State, modes: set<Mode>) {
    forall t :: LockModeOk(PcOf(s, t), modes)
  }

  lemma LockModesMove(s: State, t: Thread, pc: Pc, modes: set<Mode>, mutex: Option<Thread>, inuse: bool)
    requires LockModes(s, modes) && LockModeOk(pc, modes)
    ensures LockModes(Goto(s.(mutex := mutex, inuse := inuse), t, pc), modes)
  {
    var s' := Goto(s.(mutex := mutex, inuse := inuse), t, pc);
    assert forall u :: u != t ==> PcOf(s', u) == PcOf(s, u);
  }

  lemma LockModesStep(s: State, t: Thread, e: Event, modes: set<Mode>)
    requires LockModes(s, modes) && Next(s, t, e).Some? && (e.CallLock? ==> e.mode in modes)
    ensures LockModes(Next(s, t, e).value, modes)
  {
    hide LockModes, NobodySleeps;
    var s', pc := Next(s, t, e).value, PcOf(s, t);
    LockModesAt(s, t, modes);
    if e.Signal? {
      var s1 := if Asleep(PcOf(s, e.woken)) then Goto(s, e.woken, LockWake(PcOf(s, e.woken).mode, false)) else s;
      if Asleep(PcOf(s, e.woken)) {
        LockModesAt(s, e.woken, modes);
        LockModesMove(s, e.woken, LockWake(PcOf(s, e.woken).mode, false), modes, s.mutex, s.inuse);
      }
      LockModesMove(s1, t, if pc.mutex then UnlockLeave else Idle, modes, s.mutex, s.inuse);
    } else {
      LockModesMove(s, t, PcOf(s', t), modes, s'.mutex, s'.inuse);
    }
  }

  lemma LockModesAt(s: State, t: Thread, modes: set<Mode>)
    requires LockModes(s, modes)
    ensures LockModeOk(PcOf(s, t), modes)
  {
  }

  lemma {:induction false} ModesRun(run: seq<State>, threads: seq<Thread>, events: seq<Event>, modes: set<Mode>, i: nat)
    requires IsRun(run, threads, events) && AllLocks(events, modes) && i < |run|
    ensures LockModes(run[i], modes) && (AllUnlocks(events, Wait) ==> Patient(run[i]))
  {
    hide Next, LockModeOk;
    if i > 0 {
      ModesRun(run, threads, events, modes, i - 1);
      assert Next(run[i - 1], threads[i - 1], events[i - 1]) == Some(run[i - 1 + 1]);
      LockModesStep(run[i - 1], threads[i - 1], events[i - 1], modes);
      if AllUnlocks(events, Wait) {
        PatientStep(run[i - 1], threads[i - 1], events[i - 1]);
      }
    } else {
      assert LockModeOk(Idle, modes) by { IdleOk(modes); }
    }
  }

  lemma IdleOk(modes: set<Mode>)
    ensures LockModeOk(Idle, modes)
  {
  }

  /** A signal is only spent where some lock call has a time limit. */
  lemma NotWasted(s: State, t: Thread, e: Event, modes: set<Mode>)
    requires LockModes(s, modes) && Timed !in modes
    ensures !Wastes(s, t, e)
  {
    if e.Signal? { LockModesAt(s, e.woken, modes); }
  }

  lemma SmoothWhen(run: seq<State>, threads: seq<Thread>, events: seq<Event>, modes: set<Mode>)
    requires IsRun(run, threads, events) && AllUnlocks(events, Wait) && AllLocks(events, modes) && Timed !in modes
    ensures Smooth(run, threads, events)
  {
    hide Next, FallsBack, Wastes, Patient, LockModes;
    forall j | 0 <= j < |events|
      ensures !FallsBack(run[j], threads[j], events[j]) && !Wastes(run[j], threads[j], events[j])
    {
      ModesRun(run, threads, events, modes, j);
      assert Next(run[j], threads[j], events[j]) == Some(run[j + 1]);
      PatientStep(run[j], threads[j], events[j]);
      NotWasted(run[j], threads[j], events[j], modes);
    }
  }

  /** Some run whose unlock calls all have this kind of timeout, and its lock calls one of these, strands a thread. */
  ghost predicate CanStrand(m: Mode, modes: set<Mode>) {
    exists run, threads, events ::
      IsRun(run, threads, events) && AllUnlocks(events, m) && AllLocks(events, modes) && Stranded(run[|run| - 1])
  }

  /** A waiting thread can be left asleep for good if and only if some lock calls wait without a limit, and either the
      unlock calls do not wait for the mutex without a limit or some lock calls wait with one. */
  lemma StrandsIff(m: Mode, modes: set<Mode>)
    ensures CanStrand(m, modes) <==> Wait in modes && (!m.Wait? || Timed in modes)
  {
    hide IsRun, Stranded, AllUnlocks, AllLocks, Smooth;
    if Wait in modes && !m.Wait? {
      var run, threads, events := FallbackStrands(m);
      MoreModes(events, {Wait}, modes);
    } else if Wait in modes && Timed in modes {
      var run, threads, events := TimeoutStrands();
      MoreModes(events, {Wait, Timed}, modes);
    } else {
      forall run, threads, events | IsRun(run, threads, events) && AllUnlocks(events, m) && AllLocks(events, modes)
        ensures run != [] && !Stranded(run[|run| - 1])
      {
        SmoothLengths(run, threads, events);
        if Wait in modes {
          SmoothWhen(run, threads, events, modes);
          NobodyStranded(run, threads, events, |run| - 1);
        } else {
          ModesRun(run, threads, events, modes, |run| - 1);
          NobodyWaits(run[|run| - 1], modes);
        }
      }
    }
  }

  lemma MoreModes(events: seq<Event>, modes: set<Mode>, more: set<Mode>)
    requires AllLocks(events, modes) && modes <= more
    ensures AllLocks(events, more)
  {
  }

  lemma NobodyWaits(s: State, modes: set<Mode>)
    requires LockModes(s, modes) && Wait !in modes
    ensures !Stranded(s)
  {
    forall t | t in s.pcs ensures s.pcs[t] != LockSleep(Wait) { LockModesAt(s, t, modes); }
  }

  // ----- runs that strand a thread -----

  /** The first thread has the lock; the second one has seen so, and is about to wait. */
  lemma BothInside() returns (run: seq<State>)
    ensures |run| == 9 && run[0] == INITIAL && BothAt(run[8], Held, LockAbout(Wait)) && run[8].inuse
    ensures Next(run[0], 1, CallLock(Wait)) == Some(run[1]) && Next(run[1], 1, Proceed) == Some(run[2])
    ensures Next(run[2], 1, Proceed) == Some(run[3]) && Next(run[3], 1, Proceed) == Some(run[4])
    ensures Next(run[4], 1, Proceed) == Some(run[5]) && Next(run[5], 2, CallLock(Wait)) == Some(run[6])
    ensures Next(run[6], 2, Proceed) == Some(run[7]) && Next(run[7], 2, Proceed) == Some(run[8])
  {
    var s1 := Goto(INITIAL, 1, LockWant(Wait));
    var s2 := Goto(s1.(mutex := Some(1)), 1, LockTest(Wait));
    var s3 := Goto(s2, 1, LockTake);
    var s4 := Goto(s3.(inuse := true), 1, LockLeave);
    var s5 := Release(s4, 1, Held);
    var s6 := Goto(s5, 2, LockWant(Wait));
    var s7 := Goto(s6.(mutex := Some(2)), 2, LockTest(Wait));
    var s8 := Goto(s7, 2, LockAbout(Wait));
    run := [INITIAL, s1, s2, s3, s4, s5, s6, s7, s8];
  }

  predicate BothAt(s: State, first: Pc, second: Pc) {
    s.pcs.Keys == {1, 2} && s.pcs[1] == first && s.pcs[2] == second
  }

  /** The first thread clears the flag without the mutex. */
  lemma ClearedUnnoticed(s0: State, m: Mode) returns (run: seq<State>)
    requires BothAt(s0, Held, LockAbout(Wait)) && s0.inuse && !m.Wait?
    ensures |run| == 5 && run[0] == s0
    ensures Next(run[0], 1, CallUnlock(m)) == Some(run[1]) && Next(run[1], 1, Proceed) == Some(run[2])
    ensures Next(run[2], 1, Busy) == Some(run[3]) && Next(run[3], 1, Proceed) == Some(run[4])
    ensures BothAt(run[4], UnlockSignal(false), LockAbout(Wait)) && !run[4].inuse
  {
    var s1 := Goto(s0, 1, UnlockCheck(m));
    var s2 := Goto(s1, 1, UnlockWant(m));
    var s3 := Goto(s2, 1, UnlockClear(false));
    var s4 := Goto(s3.(inuse := false), 1, UnlockSignal(false));
    run := [s0, s1, s2, s3, s4];
  }

  /** Its signal reaches nobody, and only then the second thread begins to wait. */
  lemma SignalTooEarly(s0: State) returns (s1: State, s2: State)
    requires BothAt(s0, UnlockSignal(false), LockAbout(Wait)) && !s0.inuse
    ensures Next(s0, 1, Proceed) == Some(s1) && Next(s1, 2, Proceed) == Some(s2) && Stranded(s2)
  {
    s1 := Goto(s0, 1, Idle);
    s2 := Release(s1, 2, LockSleep(Wait));
    assert BothAt(s2, Idle, LockSleep(Wait));
  }

  /** A single unlock call with a time limit, or with none to wait, can strand a waiting thread. */
  lemma FallbackStrands(m: Mode) returns (run: seq<State>, threads: seq<Thread>, events: seq<Event>)
    requires !m.Wait?
    ensures IsRun(run, threads, events) && AllUnlocks(events, m) && AllLocks(events, {Wait}) && Stranded(run[|run| - 1])
    ensures |events| == 14 && forall j :: 0 <= j < 14 && j != 10 ==> !events[j].Busy?
  {
    hide Next, Stranded, BothAt;
    var first := BothInside();
    var second := ClearedUnnoticed(first[8], m);
    var signalled, last := SignalTooEarly(second[4]);
    threads := [1, 1, 1, 1, 1, 2, 2, 2, 1, 1, 1, 1, 1, 2];
    events := [CallLock(Wait), Proceed, Proceed, Proceed, Proceed, CallLock(Wait), Proceed, Proceed,
               CallUnlock(m), Proceed, Busy, Proceed, Proceed, Proceed];
    run := [first[0], first[1], first[2], first[3], first[4], first[5], first[6], first[7],
            second[0], second[1], second[2], second[3], second[4], signalled, last];
  }

  /** Where the three threads are; there are no others. */
  predicate Trio(s: State, first: Pc, second: Pc, third: Pc) {
    s.pcs.Keys <= {1, 2, 3} && PcOf(s, 1) == first && PcOf(s, 2) == second && PcOf(s, 3) == third
  }

  /** The second thread begins to wait, and the third does so with a time limit that is up at once. */
  lemma BothWait(s0: State) returns (run: seq<State>)
    requires Trio(s0, Held, LockAbout(Wait), Idle) && s0.inuse
    ensures |run| == 7 && run[0] == s0 && Next(run[0], 2, Proceed) == Some(run[1])
    ensures Next(run[1], 3, CallLock(Timed)) == Some(run[2]) && Next(run[2], 3, Proceed) == Some(run[3])
    ensures Next(run[3], 3, Proceed) == Some(run[4]) && Next(run[4], 3, Proceed) == Some(run[5])
    ensures Next(run[5], 3, Expire) == Some(run[6])
    ensures Trio(run[6], Held, LockSleep(Wait), LockWake(Timed, true)) && run[6].inuse && run[6].mutex.None?
  {
    var s1 := Release(s0, 2, LockSleep(Wait));
    var s2 := Goto(s1, 3, LockWant(Timed));
    var s3 := Goto(s2.(mutex := Some(3)), 3, LockTest(Timed));
    var s4 := Goto(s3, 3, LockAbout(Timed));
    var s5 := Release(s4, 3, LockSleep(Timed));
    var s6 := Goto(s5, 3, LockWake(Timed, true));
    run := [s0, s1, s2, s3, s4, s5, s6];
  }

  /** The first thread unlocks as it should; its signal is spent on the third. */
  lemma SignalSpent(s0: State) returns (run: seq<State>)
    requires Trio(s0, Held, LockSleep(Wait), LockWake(Timed, true)) && s0.inuse && s0.mutex.None?
    ensures |run| == 7 && run[0] == s0 && Next(run[0], 1, CallUnlock(Wait)) == Some(run[1])
    ensures Next(run[1], 1, Proceed) == Some(run[2]) && Next(run[2], 1, Proceed) == Some(run[3])
    ensures Next(run[3], 1, Proceed) == Some(run[4]) && Next(run[4], 1, Signal(3)) == Some(run[5])
    ensures Next(run[5], 1, Proceed) == Some(run[6])
    ensures Trio(run[6], Idle, LockSleep(Wait), LockWake(Timed, true)) && !run[6].inuse && run[6].mutex.None?
  {
    var s1 := Goto(s0, 1, UnlockCheck(Wait));
    var s2 := Goto(s1, 1, UnlockWant(Wait));
    var s3 := Goto(s2.(mutex := Some(1)), 1, UnlockClear(true));
    var s4 := Goto(s3.(inuse := false), 1, UnlockSignal(true));
    var s5 := Goto(s4, 1, UnlockLeave);
    var s6 := Release(s5, 1, Idle);
    run := [s0, s1, s2, s3, s4, s5, s6];
  }

  /** The third thread gives up without a look at the flag and without a signal of its own. */
  lemma GivesUp(s0: State) returns (s1: State, s2: State)
    requires Trio(s0, Idle, LockSleep(Wait), LockWake(Timed, true)) && !s0.inuse && s0.mutex.None?
    ensures Next(s0, 3, Proceed) == Some(s1) && Next(s1, 3, Proceed) == Some(s2) && Stranded(s2)
  {
    s1 := Goto(s0.(mutex := Some(3)), 3, LockDrop);
    s2 := Release(s1, 3, Idle);
    assert PcOf(s2, 2) == LockSleep(Wait) && 2 in s2.pcs;
    assert PcOf(s2, 1) == Idle && PcOf(s2, 3) == Idle;
  }

  lemma BothIsTrio(s: State, first: Pc, second: Pc)
    requires BothAt(s, first, second)
    ensures Trio(s, first, second, Idle)
  {
  }

  /** With unlock calls that all wait for the mutex, a lock call with a time limit can strand one without. */
  lemma TimeoutStrands() returns (run: seq<State>, threads: seq<Thread>, events: seq<Event>)
    ensures IsRun(run, threads, events) && AllUnlocks(events, Wait) && AllLocks(events, {Wait, Timed})
    ensures Stranded(run[|run| - 1])
  {
    hide Next, Stranded, BothAt, Trio;
    var a := BothInside();
    BothIsTrio(a[8], Held, LockAbout(Wait));
    var b := BothWait(a[8]);
    var c := SignalSpent(b[6]);
    var dropped, last := GivesUp(c[6]);
    threads := [1, 1, 1, 1, 1, 2, 2, 2, 2, 3, 3, 3, 3, 3, 1, 1, 1, 1, 1, 1, 3, 3];
    events := [CallLock(Wait), Proceed, Proceed, Proceed, Proceed, CallLock(Wait), Proceed, Proceed,
               Proceed, CallLock(Timed), Proceed, Proceed, Proceed, Expire,
               CallUnlock(Wait), Proceed, Proceed, Proceed, Signal(3), Proceed, Proceed, Proceed];
    run := [a[0], a[1], a[2], a[3], a[4], a[5], a[6], a[7],
            b[0], b[1], b[2], b[3], b[4], b[5],
            c[0], c[1], c[2], c[3], c[4], c[5], c[6], dropped, last];
  }
}
