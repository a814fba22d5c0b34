/** NETCONF sessions that share one SSH connection are linked in a ring: `nc_connect_ssh_channel` of
    `session_client_ssh.c` adds a session, `nc_session_free` of `session.c` takes one out. */
module SshRing {
  import opened Allocation
  import opened Sequences

  datatype Status = Starting | Running | Closing | Invalid

  class Session {
    var status: Status
    var next: Session?

    constructor (status: Status, heap: Allocator)
      modifies heap
      ensures this.status == status && next == null
      ensures heap.live == old(heap.live) + {this} && this !in old(heap.live)
    {
      this.status := status;
      next := null;
      new;
      heap.live := heap.live + {this};
    }
  }

  /** The sessions that follow `s`, in the order of the links: none and no link, or a ring. */
  ghost predicate Ring(s: Session, others: seq<Session>)
    reads s, others
  {
    && s !in others && Distinct(others)
    && if others == [] then s.next == null
       else
         && s.next == others[0] && others[|others| - 1].next == s
         && forall i :: 0 <= i < |others| - 1 ==> others[i].next == others[i + 1]
  }

  /** Every member sees the same ring, turned. */
  lemma Turned(s: Session, t: Session, rest: seq<Session>)
    requires Ring(s, [t] + rest)
    ensures Ring(t, rest + [s])
  {
    var o := [t] + rest;
    var p := rest + [s];
    assert o[0] == t && o[|o| - 1].next == s;
    assert forall i :: 0 <= i < |rest| ==> o[i + 1] == rest[i] == p[i];
    assert t !in rest by { forall i | 0 <= i < |rest| ensures rest[i] != t { assert o[i + 1] == rest[i]; } }
    assert Distinct(rest) by {
      forall i, j | 0 <= i < j < |rest| ensures rest[i] != rest[j] { assert o[i + 1] == rest[i] && o[j + 1] == rest[j]; }
    }
    forall i | 0 <= i < |p| - 1 ensures p[i].next == p[i + 1] {
      if i < |rest| - 1 { assert o[i + 1].next == o[i + 2]; }
    }
    if rest != [] { assert o[0].next == o[1]; }
  }

  /** `nc_connect_ssh_channel`: a new session, starting and live, comes right behind the one it was asked for. */
  method Join(s: Session, heap: Allocator, ghost others: seq<Session>) returns (t: Session)
    requires Ring(s, others)
    modifies s`next, heap
    ensures fresh(t) && t.status == Starting && Ring(s, [t] + others)
    ensures heap.live == old(heap.live) + {t}
  {
    RingAllocated(others);
    t := new Session(Starting, heap);
    if s.next == null {
      s.next := t;
      t.next := s;
    } else {
      var after := s.next;
      s.next := t;
      t.next := after;
    }
  }

  lemma RingAllocated(others: seq<Session>)
    ensures forall i :: 0 <= i < |others| ==> allocated(others[i])
  {
  }

  /** The first loop of `nc_session_free`: does a session other than a starting one use the connection? */
  method OthersRun(s: Session, ghost others: seq<Session>) returns (multisession: bool)
    requires Ring(s, others)
    ensures multisession <==> exists i :: 0 <= i < |others| && others[i].status != Starting
  {
    multisession := false;
    if s.next != null {
      var iter := s.next;
      ghost var i := 0;
      while iter != s
        invariant i <= |others| && iter == (if i < |others| then others[i] else s)
        invariant forall j :: 0 <= j < i ==> others[j].status == Starting
        decreases |others| - i
      {
        if iter.status != Starting {
          return true;
        }
        iter := iter.next;
        i := i + 1;
      }
    }
  }

  ghost function Members(ss: seq<Session>): set<Session> {
    set s | s in ss
  }

  /** The sessions from index `i` on are linked as before, the last one to `s`. */
  ghost predicate Rest(s: Session, others: seq<Session>, i: nat)
    reads s, others
    requires i <= |others|
  {
    && s.next == (if i < |others| then others[i] else s)
    && forall k :: i <= k < |others| ==> others[k].next == if k + 1 < |others| then others[k + 1] else s
  }

  /** The next session is taken off the ring and freed. */
  method FreeNext(s: Session, heap: Allocator, ghost others: seq<Session>, ghost i: nat)
    requires s !in others && Distinct(others) && i < |others| && Rest(s, others, i) && others[i] in heap.live
    modifies s`next, others[i], heap
    ensures Rest(s, others, i + 1) && heap.live == old(heap.live) - {others[i]}
  {
    var iter := s.next;
    assert iter in heap.live;
    s.next := iter.next;
    assert forall k :: i < k < |others| ==> others[k] != iter;
    heap.Release(iter);
  }

  lemma RestEnds(s: Session, others: seq<Session>, i: nat)
    requires s !in others && i <= |others| && Rest(s, others, i)
    ensures s.next == s <==> i == |others|
  {
  }

  lemma OneMoreMember(others: seq<Session>, i: nat)
    requires Distinct(others) && i < |others|
    ensures Members(others[..i + 1]) == Members(others[..i]) + {others[i]} && others[i] !in Members(others[..i])
  {
    assert others[..i + 1] == others[..i] + [others[i]];
  }

  /** Only starting sessions are left: each of them is freed, and read only while it is live. */
  method FreeStarting(s: Session, heap: Allocator, ghost others: seq<Session>)
    requires Ring(s, others) && others != [] && Members(others) <= heap.live
    modifies s`next, others, heap
    ensures s.next == s && heap.live == old(heap.live) - Members(others)
  {
    hide Distinct;
    assert forall k :: 0 <= k < |others| ==> others[k] in Members(others);
    FreeNext(s, heap, others, 0);
    ghost var i := 1;
    assert Members(others[..0]) == {};
    OneMoreMember(others, 0);
    while s.next != s
      invariant 1 <= i <= |others| && Rest(s, others, i) && heap.live == old(heap.live) - Members(others[..i])
      decreases |others| - i
    {
      OneMoreMember(others, i);
      FreeNext(s, heap, others, i);
      i := i + 1;
    }
    RestEnds(s, others, i);
    assert others[..|others|] == others;
  }

  lemma LastLink(s: Session, others: seq<Session>, i: nat)
    requires Ring(s, others) && i < |others|
    ensures others[i].next == s <==> i == |others| - 1
  {
    if i < |others| - 1 { assert others[i + 1] in others; }
  }

  /** The session is taken out; the others stay in their order, and the last one loses its link. */
  method Unlink(s: Session, ghost others: seq<Session>)
    requires Ring(s, others) && others != []
    modifies others
    ensures Ring(others[0], others[1..])
    ensures forall o :: o in others ==> o.status == old(o.status)
  {
    var iter := s.next;
    ghost var i := 0;
    while iter.next != s
      invariant 0 <= i < |others| && iter == others[i]
      decreases |others| - i
      modifies {}
    {
      LastLink(s, others, i);
      iter := iter.next;
      i := i + 1;
    }
    LastLink(s, others, i);
    assert |others| == 1 <==> others[0] == others[i];
    if s.next == iter {
      iter.next := null;
    } else {
      iter.next := s.next;
    }
  }

  ghost predicate SomeRunning(ss: seq<Session>)
    reads ss
  {
    exists i :: 0 <= i < |ss| && ss[i].status != Starting
  }

  /** The ring part of `nc_session_free`, and the end of the session: while sessions other than starting ones remain,
      only the session itself is freed and they keep their ring; otherwise all of them are freed with it. */
  method Leave(s: Session, heap: Allocator, ghost others: seq<Session>) returns (multisession: bool)
    requires Ring(s, others) && s in heap.live && Members(others) <= heap.live
    modifies s, others, heap
    ensures multisession <==> old(SomeRunning(others))
    ensures multisession ==>
      && others != [] && Ring(others[0], others[1..]) && heap.live == old(heap.live) - {s}
      && forall o :: o in others ==> o.status == old(o.status)
    ensures !multisession ==> heap.live == old(heap.live) - {s} - Members(others)
  {
    multisession := OthersRun(s, others);
    if !multisession {
      if s.next != null {
        FreeStarting(s, heap, others);
      }
    } else {
      Unlink(s, others);
    }
    heap.Release(s);
  }

  // ----- runs -----

  /** The sessions on a connection, from any of them on. */
  ghost predicate Cycle(all: seq<Session>)
    reads all
  {
    all != [] && Ring(all[0], all[1..])
  }

  lemma {:induction false} CycleTurns(a: seq<Session>, b: seq<Session>)
    requires Cycle(a + b)
    ensures Cycle(b + a)
    decreases |a|
  {
    if a == [] {
      assert a + b == b + a;
    } else if |a + b| == 1 {
      assert b + a == a + b;
    } else {
      var all := a + b;
      var rest := all[2..];
      assert all[1..] == [all[1]] + rest;
      Turned(all[0], all[1], rest);
      var turned := a[1..] + (b + [a[0]]);
      assert turned[0] == all[1] && turned[1..] == rest + [all[0]];
      CycleTurns(a[1..], b + [a[0]]);
      assert (b + [a[0]]) + a[1..] == b + a;
    }
  }

  lemma CycleFrom(before: seq<Session>, s: Session, after: seq<Session>)
    requires Cycle(before + [s] + after)
    ensures Ring(s, after + before)
  {
    hide Ring;
    assert before + [s] + after == before + ([s] + after);
    CycleTurns(before, [s] + after);
    assert ([s] + after + before)[0] == s && ([s] + after + before)[1..] == after + before;
  }

  /** A session leaves from the middle of the others. */
  method LeaveCycle(s: Session, heap: Allocator, ghost before: seq<Session>, ghost after: seq<Session>)
    returns (multisession: bool)
    requires Cycle(before + [s] + after) && Members(before + [s] + after) <= heap.live
    modifies s, before, after, heap
    ensures multisession <==> old(SomeRunning(before + after))
    ensures multisession ==>
      && Cycle(before + after) && heap.live == old(heap.live) - {s}
      && forall o :: o in before + after ==> o.status == old(o.status)
    ensures !multisession ==> heap.live == old(heap.live) - Members(before + [s] + after)
  {
    hide Ring, Distinct;
    CycleFrom(before, s, after);
    ghost var others := after + before;
    SameMembers(before, s, after);
    multisession := Leave(s, heap, others);
    if multisession {
      CycleTurns(after, before);
    }
  }

  lemma SameMembers(before: seq<Session>, s: Session, after: seq<Session>)
    ensures Members(before + [s] + after) == {s} + Members(after + before)
    ensures forall o :: o in before + after <==> o in after + before
    ensures SomeRunning(before + after) <==> SomeRunning(after + before)
  {
    var all := before + [s] + after;
    assert forall o :: o in all <==> o == s || o in before || o in after;
    RunningMember(before + after);
    RunningMember(after + before);
  }

  lemma RunningMember(ss: seq<Session>)
    ensures SomeRunning(ss) <==> exists o :: o in ss && o.status != Starting
  {
    if o :| o in ss && o.status != Starting {
      var i :| 0 <= i < |ss| && ss[i] == o;
    }
  }

  /** The members of `all` that are not in `gone`, in their order. */
  ghost function Remaining(all: seq<Session>, gone: set<Session>): seq<Session> {
    if all == [] then []
    else (if all[0] in gone then [] else [all[0]]) + Remaining(all[1..], gone)
  }

  lemma {:induction false} RemainingMembers(all: seq<Session>, gone: set<Session>)
    ensures forall x :: x in Remaining(all, gone) <==> x in all && x !in gone
  {
    if all != [] {
      RemainingMembers(all[1..], gone);
      assert all == [all[0]] + all[1..];
    }
  }

  /** One more member gone: it is cut out of the middle of the others. */
  lemma {:induction false} OneMoreGone(all: seq<Session>, gone: set<Session>, s: Session)
    returns (before: seq<Session>, after: seq<Session>)
    requires Distinct(all) && s in all && s !in gone
    ensures Remaining(all, gone) == before + [s] + after && Remaining(all, gone + {s}) == before + after
  {
    if all[0] == s {
      before, after := [], Remaining(all[1..], gone);
      NotThere(all[1..], gone, s);
      assert before + [s] + after == [s] + after;
    } else {
      var b;
      b, after := OneMoreGone(all[1..], gone, s);
      before := (if all[0] in gone then [] else [all[0]]) + b;
      assert before + [s] + after == (if all[0] in gone then [] else [all[0]]) + (b + [s] + after);
      assert before + after == (if all[0] in gone then [] else [all[0]]) + (b + after);
    }
  }

  lemma {:induction false} NotThere(all: seq<Session>, gone: set<Session>, s: Session)
    requires s !in all
    ensures Remaining(all, gone + {s}) == Remaining(all, gone)
  {
    if all != [] {
      assert all[0] in all;
      NotThere(all[1..], gone, s);
    }
  }

  lemma {:induction false} NoneGone(all: seq<Session>)
    ensures Remaining(all, {}) == all
  {
    if all != [] { NoneGone(all[1..]); }
  }

  /** The sessions that are left after the first `i` have gone. */
  ghost function Left(all: seq<Session>, leaving: seq<Session>, i: nat): seq<Session>
    requires i <= |leaving|
  {
    Remaining(all, Members(leaving[..i]))
  }

  /** Any run of removals, in any order, in which nobody leaves after all were freed: while a session other than a
      starting one is left, the sessions that are left keep their ring and their order and only the others are freed;
      otherwise every session is freed. */
  method LeaveInTurn(leaving: seq<Session>, heap: Allocator, ghost all: seq<Session>)
    requires Cycle(all) && Distinct(all) && Distinct(leaving) && (forall s :: s in leaving ==> s in all)
    requires Members(all) <= heap.live
    requires forall i :: 0 < i < |leaving| ==> SomeRunning(Left(all, leaving, i))
    modifies all, heap
    ensures leaving == [] || old(SomeRunning(Left(all, leaving, |leaving|))) ==>
      Cycle(Left(all, leaving, |leaving|)) && heap.live == old(heap.live) - Members(leaving)
    ensures leaving != [] && !old(SomeRunning(Left(all, leaving, |leaving|))) ==>
      heap.live == old(heap.live) - Members(all)
  {
    hide Cycle, Remaining, Distinct, SomeRunning;
    NoneGone(all);
    assert Members(leaving[..0]) == {};
    LeftMembers(all, leaving, 0);
    var i, multisession := 0, true;
    while i < |leaving|
      invariant i <= |leaving| && (multisession || i == |leaving| > 0)
      invariant i > 0 ==> (multisession <==> old(SomeRunning(Left(all, leaving, i))))
      invariant multisession ==> Cycle(Left(all, leaving, i)) && heap.live == old(heap.live) - Members(leaving[..i])
      invariant multisession ==> forall o :: o in Left(all, leaving, i) ==> o.status == old(o.status)
      invariant !multisession ==> heap.live == old(heap.live) - Members(all)
    {
      ghost var before, after := NextGone(all, leaving, i);
      SameRunning(Left(all, leaving, i + 1));
      multisession := LeaveCycle(leaving[i], heap, before, after);
      i := i + 1;
    }
    assert leaving[..|leaving|] == leaving;
  }

  twostate lemma SameRunning(ss: seq<Session>)
    requires forall o :: o in ss ==> o.status == old(o.status)
    ensures SomeRunning(ss) <==> old(SomeRunning(ss))
  {
  }

  lemma {:induction false} LeftMembers(all: seq<Session>, leaving: seq<Session>, i: nat)
    requires i <= |leaving|
    ensures forall x :: x in Left(all, leaving, i) <==> x in all && x !in Members(leaving[..i])
  {
    RemainingMembers(all, Members(leaving[..i]));
  }

  /** The next one to go, and those before and after it among the ones left. */
  lemma NextGone(all: seq<Session>, leaving: seq<Session>, i: nat) returns (before: seq<Session>, after: seq<Session>)
    requires Distinct(all) && Distinct(leaving) && i < |leaving| && leaving[i] in all
    ensures Left(all, leaving, i) == before + [leaving[i]] + after && Left(all, leaving, i + 1) == before + after
    ensures Members(leaving[..i + 1]) == Members(leaving[..i]) + {leaving[i]}
    ensures forall x :: x in before + [leaving[i]] + after <==> x in all && x !in Members(leaving[..i])
    ensures (forall k :: 0 <= k < |before| ==> before[k] in all) && (forall k :: 0 <= k < |after| ==> after[k] in all)
  {
    hide Remaining;
    OneMoreMember(leaving, i);
    before, after := OneMoreGone(all, Members(leaving[..i]), leaving[i]);
    LeftMembers(all, leaving, i);
    var rest := before + [leaving[i]] + after;
    forall k | 0 <= k < |before| ensures before[k] in all { assert before[k] == rest[k]; }
    forall k | 0 <= k < |after| ensures after[k] in all { assert after[k] == rest[|before| + 1 + k]; }
  }
}
