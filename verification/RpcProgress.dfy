/** What the RPC lock of `session.c` gives: a thread that runs alone gets a free lock, does not get a taken one, gives it
    back, and a thread that was waiting gets it then. */
module RpcProgress {
  import opened CText
  import opened RpcLock

  /** The state after thread `t` alone has gone through the events, if it can. */
  function Alone(s: State, t: Thread, events: seq<Event>): Option<State>
    decreases |events|
  {
    if events == [] then Some(s)
    else match Next(s, t, events[0])
      case None => None
      case Some(s') => Alone(s', t, events[1..])
  }

  /** No mutex call fails and no wait does. */
  predicate Undisturbed(events: seq<Event>) {
    forall i :: 0 <= i < |events| ==> !events[i].Busy? && !events[i].Error?
  }

  predicate AllProceed(events: seq<Event>) {
    forall i :: 0 <= i < |events| ==> events[i].Proceed?
  }

  /** Places of a thread in the lock call at which it does not wait for anything but the mutex. */
  predicate Running(pc: Pc) {
    pc.LockPeek? || pc.LockWant? || pc.LockTest? || pc.LockTake? || pc.LockLeave?
  }

  lemma OneStep(s: State, t: Thread, events: seq<Event>)
    requires events != [] && Undisturbed(events) && Running(PcOf(s, t)) && Advance(s, t).Some?
    ensures Undisturbed(events[1..]) && (AllProceed(events) <==> events[0].Proceed? && AllProceed(events[1..]))
    ensures Alone(s, t, events) == if events[0].Proceed? then Alone(Advance(s, t).value, t, events[1..]) else None
  {
    hide Advance;
    assert !events[0].Busy? && !events[0].Error?;
    if events[0].Proceed? && AllProceed(events[1..]) {
      forall i | 0 <= i < |events| ensures events[i].Proceed? { if i > 0 { assert events[i] == events[1..][i - 1]; } }
    }
  }

  lemma Twice(s: State, t: Thread, a: Pc, b: Pc)
    ensures Goto(Goto(s, t, a), t, b) == Goto(s, t, b) && PcOf(Goto(s, t, a), t) == a
  {
    assert s.pcs[t := a][t := b] == s.pcs[t := b];
  }

  lemma NoneLeft(s: State, t: Thread, events: seq<Event>)
    requires |events| == 0
    ensures Alone(s, t, events) == Some(s) && AllProceed(events)
  {
  }

  /** With the mutex, having found the flag clear. */
  lemma TakeRun(s: State, t: Thread, events: seq<Event>)
    requires PcOf(s, t).LockTake? && !s.inuse && |events| == 2 && Undisturbed(events)
    ensures Alone(s, t, events)
         == if AllProceed(events) then Some(Goto(s.(mutex := None, inuse := true), t, Held)) else None
  {
    hide Alone, Undisturbed, AllProceed;
    var s1 := Goto(s.(inuse := true), t, LockLeave);
    Twice(s.(inuse := true), t, LockLeave, Held);
    OneStep(s, t, events);
    if events[0].Proceed? {
      OneStep(s1, t, events[1..]);
      NoneLeft(Release(s1, t, Held), t, events[1..][1..]);
    }
  }

  lemma WantRun(s: State, t: Thread, m: Mode, events: seq<Event>)
    requires PcOf(s, t) == LockWant(m) && !s.inuse && s.mutex.None? && |events| == 4 && Undisturbed(events)
    ensures Alone(s, t, events) == if AllProceed(events) then Some(Goto(s.(inuse := true), t, Held)) else None
  {
    hide Alone, Undisturbed, AllProceed;
    var locked := s.(mutex := Some(t));
    var s1, s2 := Goto(locked, t, LockTest(m)), Goto(locked, t, LockTake);
    Twice(locked, t, LockTest(m), LockTake);
    Twice(locked.(mutex := None, inuse := true), t, LockTake, Held);
    OneStep(s, t, events);
    if events[0].Proceed? {
      OneStep(s1, t, events[1..]);
      if events[1..][0].Proceed? {
        TakeRun(s2, t, events[1..][1..]);
        assert s2.(mutex := None, inuse := true) == Goto(locked.(mutex := None, inuse := true), t, LockTake);
      }
    }
  }

  /** The number of statements of a lock call on a free lock. */
  function Statements(m: Mode): nat {
    if m.Try? then 5 else 4
  }

  /** A free lock is taken: for every timeout, a thread that calls alone and is not disturbed goes on in one way only,
      and then holds the lock, with the mutex free and all other threads where they were. */
  lemma FreeLockIsTaken(s: State, t: Thread, m: Mode, events: seq<Event>)
    requires PcOf(s, t).Idle? && !s.inuse && s.mutex.None? && |events| == Statements(m) && Undisturbed(events)
    ensures Next(s, t, CallLock(m)).Some?
    ensures Alone(Next(s, t, CallLock(m)).value, t, events)
         == if AllProceed(events) then Some(Goto(s.(inuse := true), t, Held)) else None
  {
    hide Alone, Undisturbed, AllProceed;
    var free := s.(inuse := true);
    if m.Try? {
      var s1 := Goto(s, t, LockPeek);
      Twice(s, t, LockPeek, LockWant(Try));
      OneStep(s1, t, events);
      if events[0].Proceed? { WantRun(Goto(s, t, LockWant(Try)), t, Try, events[1..]); }
    } else {
      WantRun(Goto(s, t, LockWant(m)), t, m, events);
    }
    Twice(free, t, LockWant(m), Held);
  }

  // ----- a taken lock -----

  lemma StepWhileTaken(s: State, t: Thread, e: Event)
    requires Inv(s) && s.inuse && !Owning(PcOf(s, t)) && Next(s, t, e).Some?
    ensures var s' := Next(s, t, e).value; Inv(s') && s'.inuse && !Owning(PcOf(s', t))
  {
    NextKeepsInv(s, t, e);
  }

  /** A taken lock is not taken again: whatever another thread does alone, it never gets to hold it. */
  lemma {:induction false} TakenLockStays(s: State, t: Thread, events: seq<Event>)
    requires Inv(s) && s.inuse && !Owning(PcOf(s, t)) && Alone(s, t, events).Some?
    ensures var s' := Alone(s, t, events).value; s'.inuse && !PcOf(s', t).Held?
    decreases |events|
  {
    hide Inv, Next;
    if events != [] {
      StepWhileTaken(s, t, events[0]);
      TakenLockStays(Next(s, t, events[0]).value, t, events[1..]);
    }
  }

  /** A call without waiting returns at once when the lock is taken, and leaves everything as it was. */
  lemma TryReturnsAtOnce(s: State, t: Thread)
    requires PcOf(s, t).Idle? && s.inuse
    ensures Alone(s, t, [CallLock(Try), Proceed]) == Some(Goto(s, t, Idle))
  {
    Twice(s, t, LockPeek, Idle);
    assert [CallLock(Try), Proceed][1..] == [Proceed] && [Proceed][1..] == [];
  }

  /** Any other call on a taken lock begins to wait, without the mutex. */
  lemma WaitingCallSleeps(s: State, t: Thread, m: Mode)
    requires PcOf(s, t).Idle? && s.inuse && s.mutex.None? && !m.Try?
    ensures Alone(s, t, [CallLock(m), Proceed, Proceed, Proceed]) == Some(Goto(s, t, LockSleep(m)))
  {
    hide Alone;
    var locked := s.(mutex := Some(t));
    var s1, s2, s3 := Goto(s, t, LockWant(m)), Goto(locked, t, LockTest(m)), Goto(locked, t, LockAbout(m));
    Twice(locked, t, LockWant(m), LockTest(m));
    Twice(locked, t, LockTest(m), LockAbout(m));
    Twice(s, t, LockAbout(m), LockSleep(m));
    First(s, t, [CallLock(m), Proceed, Proceed, Proceed], [Proceed, Proceed, Proceed]);
    First(s1, t, [Proceed, Proceed, Proceed], [Proceed, Proceed]);
    First(s2, t, [Proceed, Proceed], [Proceed]);
    First(s3, t, [Proceed], []);
  }

  lemma First(s: State, t: Thread, events: seq<Event>, rest: seq<Event>)
    requires |events| > 0 && events[1..] == rest
    ensures Alone(s, t, events) == match Next(s, t, events[0]) case None => None case Some(s') => Alone(s', t, rest)
    ensures rest == [] ==> Alone(s, t, events) == Next(s, t, events[0])
  {
    hide Next;
  }

  /** A wait that times out gives up and leaves everything as it was. */
  lemma ExpiredCallReturns(s: State, t: Thread)
    requires PcOf(s, t) == LockSleep(Timed) && s.mutex.None?
    ensures Alone(s, t, [Expire, Proceed, Proceed]) == Some(Goto(s, t, Idle))
  {
    hide Alone;
    var locked := s.(mutex := Some(t));
    Twice(s, t, LockWake(Timed, true), LockDrop);
    Twice(locked, t, LockWake(Timed, true), LockDrop);
    Twice(s, t, LockDrop, Idle);
    First(s, t, [Expire, Proceed, Proceed], [Proceed, Proceed]);
    First(Goto(s, t, LockWake(Timed, true)), t, [Proceed, Proceed], [Proceed]);
    First(Goto(locked, t, LockDrop), t, [Proceed], []);
  }

  // ----- giving the lock back -----

  lemma UnlockToSignal(s: State, t: Thread, m: Mode, rest: seq<Event>)
    requires PcOf(s, t).Held? && s.inuse && s.mutex.None?
    ensures Alone(s, t, [CallUnlock(m)] + ([Proceed] + ([Proceed] + ([Proceed] + rest))))
         == Alone(Goto(s.(mutex := Some(t), inuse := false), t, UnlockSignal(true)), t, rest)
  {
    hide Alone;
    var locked := s.(mutex := Some(t));
    Twice(s, t, UnlockCheck(m), UnlockWant(m));
    Twice(locked, t, UnlockWant(m), UnlockClear(true));
    Twice(locked.(inuse := false), t, UnlockClear(true), UnlockSignal(true));
    First(s, t, [CallUnlock(m)] + ([Proceed] + ([Proceed] + ([Proceed] + rest))), [Proceed] + ([Proceed] + ([Proceed] + rest)));
    First(Goto(s, t, UnlockCheck(m)), t, [Proceed] + ([Proceed] + ([Proceed] + rest)), [Proceed] + ([Proceed] + rest));
    First(Goto(s, t, UnlockWant(m)), t, [Proceed] + ([Proceed] + rest), [Proceed] + rest);
    First(Goto(locked, t, UnlockClear(true)), t, [Proceed] + rest, rest);
  }

  /** The unlock call of a thread that is not disturbed, where `how` is the statement with the signal. */
  function UnlockCall(m: Mode, how: Event): seq<Event> {
    [CallUnlock(m)] + ([Proceed] + ([Proceed] + ([Proceed] + [how, Proceed])))
  }

  /** When nobody waits, the unlock call frees the lock and changes nothing else. */
  lemma UnlockFrees(s: State, t: Thread, m: Mode)
    requires PcOf(s, t).Held? && s.inuse && s.mutex.None? && NobodySleeps(s)
    ensures Alone(s, t, UnlockCall(m, Proceed)) == Some(Goto(s.(inuse := false), t, Idle))
  {
    hide Alone;
    var locked := s.(mutex := Some(t), inuse := false);
    UnlockToSignal(s, t, m, [Proceed, Proceed]);
    First(Goto(locked, t, UnlockSignal(true)), t, [Proceed, Proceed], [Proceed]);
    Twice(locked, t, UnlockSignal(true), UnlockLeave);
    First(Goto(locked, t, UnlockLeave), t, [Proceed], []);
    Twice(s.(inuse := false), t, UnlockLeave, Idle);
  }

  /** An unlock call that does not get the mutex frees the lock all the same. */
  lemma FallbackFrees(s: State, t: Thread, m: Mode)
    requires PcOf(s, t).Held? && s.inuse && NobodySleeps(s) && !m.Wait?
    ensures Alone(s, t, [CallUnlock(m), Proceed, Busy, Proceed, Proceed]) == Some(Goto(s.(inuse := false), t, Idle))
  {
    hide Alone;
    var free := s.(inuse := false);
    Twice(s, t, UnlockCheck(m), UnlockWant(m));
    Twice(s, t, UnlockWant(m), UnlockClear(false));
    Twice(free, t, UnlockClear(false), UnlockSignal(false));
    Twice(free, t, UnlockSignal(false), Idle);
    First(s, t, [CallUnlock(m), Proceed, Busy, Proceed, Proceed], [Proceed, Busy, Proceed, Proceed]);
    First(Goto(s, t, UnlockCheck(m)), t, [Proceed, Busy, Proceed, Proceed], [Busy, Proceed, Proceed]);
    First(Goto(s, t, UnlockWant(m)), t, [Busy, Proceed, Proceed], [Proceed, Proceed]);
    First(Goto(s, t, UnlockClear(false)), t, [Proceed, Proceed], [Proceed]);
    First(Goto(free, t, UnlockSignal(false)), t, [Proceed], []);
  }

  /** Locking and unlocking a free lock leaves everything as it was, for every pair of timeouts. */
  lemma LockThenUnlock(s: State, t: Thread, m: Mode, k: Mode)
    requires PcOf(s, t).Idle? && !s.inuse && s.mutex.None? && NobodySleeps(s)
    ensures var held := Goto(s.(inuse := true), t, Held);
      Alone(held, t, UnlockCall(k, Proceed)) == Some(Goto(s, t, Idle))
    ensures Next(s, t, CallLock(m)).Some?
    ensures Alone(Next(s, t, CallLock(m)).value, t, seq(Statements(m), _ => Proceed)) == Some(Goto(s.(inuse := true), t, Held))
  {
    hide Alone;
    var events := seq(Statements(m), _ => Proceed);
    FreeLockIsTaken(s, t, m, events);
    var held := Goto(s.(inuse := true), t, Held);
    UnlockFrees(held, t, k);
    Twice(s, t, Held, Idle);
  }

  /** A waiting thread gets the lock: the unlock call wakes it, and when it runs it holds the lock, with the mutex free
      and all other threads where they were. */
  lemma Handover(s: State, t: Thread, w: Thread, m: Mode)
    requires PcOf(s, t).Held? && s.inuse && s.mutex.None? && Asleep(PcOf(s, w))
    ensures var s1 := Alone(s, t, UnlockCall(m, Signal(w)));
      s1.Some? && Alone(s1.value, w, [Proceed, Proceed, Proceed, Proceed]) == Some(Goto(Goto(s, t, Idle), w, Held))
  {
    hide Alone;
    var k := PcOf(s, w).mode;
    var locked := s.(mutex := Some(t), inuse := false);
    var s2 := Goto(Goto(locked, t, UnlockSignal(true)), w, LockWake(k, false));
    var s3 := Goto(s2, t, UnlockLeave);
    UnlockToSignal(s, t, m, [Signal(w), Proceed]);
    First(Goto(locked, t, UnlockSignal(true)), t, [Signal(w), Proceed], [Proceed]);
    First(s3, t, [Proceed], []);
    var s4 := Release(s3, t, Idle);
    assert s4 == Goto(Goto(s.(inuse := false), t, Idle), w, LockWake(k, false)) by {
      assert s4.pcs == s.pcs[t := Idle][w := LockWake(k, false)];
    }
    WokenTakes(Goto(s.(inuse := false), t, Idle), w, k);
  }

  lemma WokenTakes(s: State, w: Thread, k: Mode)
    requires !s.inuse && s.mutex.None?
    ensures Alone(Goto(s, w, LockWake(k, false)), w, [Proceed, Proceed, Proceed, Proceed])
         == Some(Goto(s.(inuse := true), w, Held))
  {
    hide Alone, AllProceed, Undisturbed;
    var locked := s.(mutex := Some(w));
    Twice(s, w, LockWake(k, false), LockTest(k));
    Twice(locked, w, LockWake(k, false), LockTest(k));
    Twice(locked, w, LockTest(k), LockTake);
    First(Goto(s, w, LockWake(k, false)), w, [Proceed, Proceed, Proceed, Proceed], [Proceed, Proceed, Proceed]);
    First(Goto(locked, w, LockTest(k)), w, [Proceed, Proceed, Proceed], [Proceed, Proceed]);
    TwoProceeds();
    TakeRun(Goto(locked, w, LockTake), w, [Proceed, Proceed]);
    Twice(s.(inuse := true), w, LockTake, Held);
  }

  lemma TwoProceeds()
    ensures Undisturbed([Proceed, Proceed]) && AllProceed([Proceed, Proceed])
  {
  }

  // ----- calls that fail -----

  /** A lock call that does not get the mutex, or gets an error, leaves everything as it was; where it may wait without
      limit it is never busy. */
  lemma FailedLockReturns(s: State, t: Thread, m: Mode)
    requires PcOf(s, t).Idle? && !m.Try?
    ensures Alone(s, t, [CallLock(m), Error]) == Some(Goto(s, t, Idle))
    ensures Alone(s, t, [CallLock(m), Busy]) == if m.Wait? then None else Some(Goto(s, t, Idle))
  {
    hide Alone;
    Twice(s, t, LockWant(m), Idle);
    First(s, t, [CallLock(m), Error], [Error]);
    First(s, t, [CallLock(m), Busy], [Busy]);
    First(Goto(s, t, LockWant(m)), t, [Error], []);
    First(Goto(s, t, LockWant(m)), t, [Busy], []);
  }

  /** So does a wait that fails, and it gives the mutex back. */
  lemma FailedWaitReturns(s: State, t: Thread, m: Mode)
    requires PcOf(s, t) == LockAbout(m) && s.mutex == Some(t)
    ensures Alone(s, t, [Error, Proceed]) == Some(Goto(s.(mutex := None), t, Idle))
  {
    hide Alone;
    Twice(s.(mutex := None), t, LockDrop, Idle);
    First(s, t, [Error, Proceed], [Proceed]);
    First(Goto(s, t, LockDrop), t, [Proceed], []);
    Twice(s, t, LockDrop, Idle);
  }

  /** An unlock call that gets an error from the mutex keeps the lock. */
  lemma FailedUnlockKeeps(s: State, t: Thread, m: Mode)
    requires PcOf(s, t).Held? && s.inuse
    ensures Alone(s, t, [CallUnlock(m), Proceed, Error]) == Some(Goto(s, t, Held))
  {
    hide Alone;
    Twice(s, t, UnlockCheck(m), UnlockWant(m));
    Twice(s, t, UnlockWant(m), Held);
    First(s, t, [CallUnlock(m), Proceed, Error], [Proceed, Error]);
    First(Goto(s, t, UnlockCheck(m)), t, [Proceed, Error], [Error]);
    First(Goto(s, t, UnlockWant(m)), t, [Error], []);
  }
}
