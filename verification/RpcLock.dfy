/** `nc_session_rpc_lock` and `nc_session_rpc_unlock` of `session.c`: a lock made of a mutex, a condition
    variable and the flag `rpc_inuse`. Any number of threads run the two functions; every statement that
    touches shared state is a step, and the steps of different threads interleave freely. */
module RpcLock {
  import opened CText

  type Thread = int

  /** The three kinds of timeout argument: positive, zero and -1. */
  datatype Mode = Timed | Try | Wait

  /** Where a thread is. */
  datatype Pc =
    | Idle
    | LockPeek                 // zero timeout: the flag is read without the mutex (286)
    | LockWant(mode: Mode)     // the mutex is asked for (275, 292, 302)
    | LockTest(mode: Mode)     // with the mutex, the flag is tested (277, 295, 304)
    | LockAbout(mode: Mode)    // with the mutex, the flag was set: the wait is about to begin (278, 305)
    | LockSleep(mode: Mode)    // waiting, without the mutex
    | LockWake(mode: Mode, expired: bool)  // the wait is over once the mutex is free again
    | LockDrop                 // with the mutex, the attempt is given up (280, 296, 307)
    | LockTake                 // with the mutex, the flag was clear: it is asserted clear and set (326-327)
    | LockLeave                // with the mutex, the flag is set: the mutex is released (330)
    | Held                     // the lock call has returned 1
    | UnlockCheck(mode: Mode)  // the flag is asserted set (351)
    | UnlockWant(mode: Mode)   // the mutex is asked for (358, 361, 364)
    | UnlockClear(mutex: bool) // the flag is cleared, with or without the mutex (375)
    | UnlockSignal(mutex: bool)// a waiting thread is signalled (376)
    | UnlockLeave              // the mutex is released (380)
    | AssertFailed

  /** The owner of the mutex, the flag, and the threads that are not idle. */
  datatype State = State(mutex: Option<Thread>, inuse: bool, pcs: map<Thread, Pc>)

  function PcOf(s: State, t: Thread): Pc {
    if t in s.pcs then s.pcs[t] else Idle
  }

  function Goto(s: State, t: Thread, pc: Pc): State {
    s.(pcs := s.pcs[t := pc])
  }

  const INITIAL := State(None, false, map[])

  datatype Event =
    | CallLock(mode: Mode)
    | CallUnlock(mode: Mode)
    | Proceed                  // the next statement; a mutex that it asks for is free
    | Busy                     // EBUSY or ETIMEDOUT from a mutex that is asked for
    | Error                    // another error from a mutex that is asked for, or from a wait that begins
    | Signal(woken: Thread)    // the next statement is the signal, and it reaches a waiting thread, which may be
                               // one whose wait has just timed out: then it is spent without effect
    | Expire                   // a wait times out
    | Spurious                 // a wait ends without a signal

  /** Taking the mutex. */
  function Acquire(s: State, t: Thread, pc: Pc): Option<State> {
    if s.mutex.None? then Some(Goto(s.(mutex := Some(t)), t, pc)) else None
  }

  function Release(s: State, t: Thread, pc: Pc): State {
    Goto(s.(mutex := None), t, pc)
  }

  predicate Asleep(pc: Pc) {
    pc.LockSleep?
  }

  /** A wait has timed out and the thread is about to have the mutex again. */
  predicate Expired(pc: Pc) {
    pc.LockWake? && pc.expired
  }

  predicate NobodySleeps(s: State) {
    forall t :: t in s.pcs ==> !Asleep(s.pcs[t])
  }

  /** The next statement of thread `t`. */
  function Advance(s: State, t: Thread): Option<State> {
    match PcOf(s, t)
    case LockPeek => Some(Goto(s, t, if s.inuse then Idle else LockWant(Try)))
    case LockWant(m) => Acquire(s, t, LockTest(m))
    case LockTest(m) =>
      Some(Goto(s, t, if !s.inuse then LockTake else if m.Try? then LockDrop else LockAbout(m)))
    case LockAbout(m) => Some(Release(s, t, LockSleep(m)))
    case LockWake(m, expired) => Acquire(s, t, if expired then LockDrop else LockTest(m))
    case LockDrop => Some(Release(s, t, Idle))
    case LockTake => Some(if s.inuse then Goto(s, t, AssertFailed) else Goto(s.(inuse := true), t, LockLeave))
    case LockLeave => Some(Release(s, t, Held))
    case UnlockCheck(m) => Some(Goto(s, t, if s.inuse then UnlockWant(m) else AssertFailed))
    case UnlockWant(_) => Acquire(s, t, UnlockClear(true))
    case UnlockClear(mutex) => Some(Goto(s.(inuse := false), t, UnlockSignal(mutex)))
    case UnlockSignal(mutex) => if NobodySleeps(s) then Some(Goto(s, t, if mutex then UnlockLeave else Idle)) else None
    case UnlockLeave => Some(Release(s, t, Idle))
    case _ => None
  }

  /** The state after an event of thread `t`, if the event can happen. */
  function Next(s: State, t: Thread, e: Event): Option<State> {
    match e
    case CallLock(m) =>
      if PcOf(s, t).Idle? then Some(Goto(s, t, if m.Try? then LockPeek else LockWant(m))) else None
    case CallUnlock(m) => if PcOf(s, t).Held? then Some(Goto(s, t, UnlockCheck(m))) else None
    case Proceed => Advance(s, t)
    case Busy =>
      (match PcOf(s, t)
       case LockWant(m) => if m.Wait? then None else Some(Goto(s, t, Idle))
       case UnlockWant(m) => if m.Wait? then None else Some(Goto(s, t, UnlockClear(false)))
       case _ => None)
    case Error =>
      (match PcOf(s, t)
       case LockWant(_) => Some(Goto(s, t, Idle))
       case LockAbout(_) => Some(Goto(s, t, LockDrop))
       case UnlockWant(_) => Some(Goto(s, t, Held))
       case _ => None)
    case Signal(w) =>
      if PcOf(s, t).UnlockSignal? && (Asleep(PcOf(s, w)) || Expired(PcOf(s, w))) then
        var s1 := if Asleep(PcOf(s, w)) then Goto(s, w, LockWake(PcOf(s, w).mode, false)) else s;
        Some(Goto(s1, t, if PcOf(s, t).mutex then UnlockLeave else Idle))
      else None
    case Expire => if PcOf(s, t) == LockSleep(Timed) then Some(Goto(s, t, LockWake(Timed, true))) else None
    case Spurious => if Asleep(PcOf(s, t)) then Some(Goto(s, t, LockWake(PcOf(s, t).mode, false))) else None
  }

  /** A run: states from the initial one on, each reached by an event of some thread. */
  ghost predicate IsRun(run: seq<State>, threads: seq<Thread>, events: seq<Event>) {
    && |run| == |threads| + 1 == |events| + 1
    && run[0] == INITIAL
    && forall i :: 0 <= i < |events| ==> Next(run[i], threads[i], events[i]) == Some(run[i + 1])
  }

  // ----- safety -----

  /** Statements during which a thread owns the mutex. */
  predicate WithMutex(pc: Pc) {
    || pc.LockTest? || pc.LockAbout? || pc.LockDrop? || pc.LockTake? || pc.LockLeave? || pc.UnlockLeave?
    || pc == UnlockClear(true) || pc == UnlockSignal(true)
  }

  /** From setting the flag to clearing it. */
  predicate Owning(pc: Pc) {
    pc.LockLeave? || pc.Held? || pc.UnlockCheck? || pc.UnlockWant? || pc.UnlockClear?
  }

  ghost predicate Inv(s: State) {
    && (forall t :: WithMutex(PcOf(s, t)) <==> s.mutex == Some(t))
    && (forall t :: Owning(PcOf(s, t)) ==> s.inuse)
    && (forall t, u :: Owning(PcOf(s, t)) && Owning(PcOf(s, u)) ==> t == u)
    && (forall t :: PcOf(s, t).LockTake? ==> !s.inuse)
    && (forall t :: !PcOf(s, t).AssertFailed?)
  }

  /** A move that leaves the mutex and the flag alone. */
  lemma PlainMove(s: State, t: Thread, pc: Pc)
    requires Inv(s) && WithMutex(pc) == WithMutex(PcOf(s, t)) && (Owning(pc) ==> Owning(PcOf(s, t)))
    requires (pc.LockTake? ==> !s.inuse) && !pc.AssertFailed?
    ensures Inv(Goto(s, t, pc))
  {
    var s' := Goto(s, t, pc);
    assert forall u :: u != t ==> PcOf(s', u) == PcOf(s, u);
  }

  lemma AcquireMove(s: State, t: Thread, pc: Pc)
    requires Inv(s) && s.mutex.None? && WithMutex(pc) && (Owning(pc) ==> Owning(PcOf(s, t)))
    requires !pc.LockTake?
    ensures Inv(Goto(s.(mutex := Some(t)), t, pc))
  {
    var s' := Goto(s.(mutex := Some(t)), t, pc);
    assert forall u :: u != t ==> PcOf(s', u) == PcOf(s, u);
  }

  lemma ReleaseMove(s: State, t: Thread, pc: Pc)
    requires Inv(s) && WithMutex(PcOf(s, t)) && !WithMutex(pc) && (Owning(pc) ==> Owning(PcOf(s, t)))
    requires !pc.AssertFailed?
    ensures Inv(Release(s, t, pc))
  {
    var s' := Release(s, t, pc);
    assert forall u :: u != t ==> PcOf(s', u) == PcOf(s, u);
  }

  lemma SetMove(s: State, t: Thread)
    requires Inv(s) && PcOf(s, t).LockTake?
    ensures !s.inuse && Inv(Goto(s.(inuse := true), t, LockLeave))
  {
    var s' := Goto(s.(inuse := true), t, LockLeave);
    assert forall u :: u != t ==> PcOf(s', u) == PcOf(s, u);
    assert forall u :: u != t ==> !PcOf(s, u).LockTake? by {
      forall u | u != t ensures !PcOf(s, u).LockTake? { assert WithMutex(PcOf(s, t)); }
    }
  }

  lemma ClearMove(s: State, t: Thread, mutex: bool)
    requires Inv(s) && PcOf(s, t) == UnlockClear(mutex)
    ensures Inv(Goto(s.(inuse := false), t, UnlockSignal(mutex)))
  {
    var s' := Goto(s.(inuse := false), t, UnlockSignal(mutex));
    assert forall u :: u != t ==> PcOf(s', u) == PcOf(s, u);
    assert Owning(PcOf(s, t));
  }

  lemma AdvanceKeepsInv(s: State, t: Thread)
    requires Inv(s) && Advance(s, t).Some?
    ensures Inv(Advance(s, t).value)
  {
    hide Inv;
    match PcOf(s, t)
    case LockPeek => PlainMove(s, t, if s.inuse then Idle else LockWant(Try));
    case LockWant(m) => AcquireMove(s, t, LockTest(m));
    case LockTest(m) => PlainMove(s, t, if !s.inuse then LockTake else if m.Try? then LockDrop else LockAbout(m));
    case LockAbout(m) => ReleaseMove(s, t, LockSleep(m));
    case LockWake(m, expired) => AcquireMove(s, t, if expired then LockDrop else LockTest(m));
    case LockDrop => ReleaseMove(s, t, Idle);
    case LockTake => SetMove(s, t);
    case LockLeave => ReleaseMove(s, t, Held);
    case UnlockCheck(m) => OwnerSeesFlag(s, t); PlainMove(s, t, UnlockWant(m));
    case UnlockWant(_) => AcquireMove(s, t, UnlockClear(true));
    case UnlockClear(mutex) => ClearMove(s, t, mutex);
    case UnlockSignal(mutex) => PlainMove(s, t, if mutex then UnlockLeave else Idle);
    case UnlockLeave => ReleaseMove(s, t, Idle);
  }

  lemma OwnerSeesFlag(s: State, t: Thread)
    requires Inv(s) && Owning(PcOf(s, t))
    ensures s.inuse
  {
  }

  lemma NextKeepsInv(s: State, t: Thread, e: Event)
    requires Inv(s) && Next(s, t, e).Some?
    ensures Inv(Next(s, t, e).value)
  {
    hide Inv, Advance;
    var pc := PcOf(s, t);
    match e
    case CallLock(m) => PlainMove(s, t, if m.Try? then LockPeek else LockWant(m));
    case CallUnlock(m) => PlainMove(s, t, UnlockCheck(m));
    case Proceed => AdvanceKeepsInv(s, t);
    case Busy => PlainMove(s, t, if pc.LockWant? then Idle else UnlockClear(false));
    case Error => PlainMove(s, t, if pc.LockWant? then Idle else if pc.LockAbout? then LockDrop else Held);
    case Signal(w) =>
      if Asleep(PcOf(s, w)) {
        PlainMove(s, w, LockWake(PcOf(s, w).mode, false));
        PlainMove(Goto(s, w, LockWake(PcOf(s, w).mode, false)), t, if pc.mutex then UnlockLeave else Idle);
      } else {
        PlainMove(s, t, if pc.mutex then UnlockLeave else Idle);
      }
    case Expire => PlainMove(s, t, LockWake(Timed, true));
    case Spurious => PlainMove(s, t, LockWake(pc.mode, false));
  }

  lemma {:induction false} RunKeepsInv(run: seq<State>, threads: seq<Thread>, events: seq<Event>, i: nat)
    requires IsRun(run, threads, events) && i < |run|
    ensures Inv(run[i])
  {
    hide Next;
    if i > 0 {
      RunKeepsInv(run, threads, events, i - 1);
      NextKeepsInv(run[i - 1], threads[i - 1], events[i - 1]);
    }
  }

  /** From the lock call's return of 1 until the flag is cleared for the unlock call. */
  predicate Critical(pc: Pc) {
    pc.Held? || pc.UnlockCheck? || pc.UnlockWant? || pc.UnlockClear?
  }

  /** A thread that is in neither function. */
  predicate Outside(pc: Pc) {
    pc.Idle? || pc.Held?
  }

  /** In every run: at most one thread holds the lock, both assertions hold, and no thread is outside the two
      functions while it owns the mutex. */
  lemma Safety(run: seq<State>, threads: seq<Thread>, events: seq<Event>, i: nat, t: Thread, u: Thread)
    requires IsRun(run, threads, events) && i < |run|
    ensures Critical(PcOf(run[i], t)) && Critical(PcOf(run[i], u)) ==> t == u
    ensures !PcOf(run[i], t).AssertFailed?
    ensures Outside(PcOf(run[i], t)) ==> run[i].mutex != Some(t)
  {
    hide IsRun;
    RunKeepsInv(run, threads, events, i);
  }
}
