/**
 * The deadlock detector and resolver of the dining philosophers
 * (ml224ec_pa2/src/DeadlockResolver.java).
 *
 * The resolver runs on a thread of its own; here that thread is the caller id
 * `thread`, and one pass of its polling loop is the method `Poll`.
 */
module Resolver {
  import opened Options
  import opened ChopSticks
  import opened Philosophers
  import opened Dining

  /** Every stick of the philosophers `ps`. */
  ghost function Sticks(ps: seq<Philosopher>): set<ChopStick>
    reads set p | p in ps
  {
    (set p | p in ps :: p.leftChopStick) + (set p | p in ps :: p.rightChopStick)
  }

  /** The sticks of the philosophers at the indices `idx` of `ps`. */
  ghost function SticksAt(ps: seq<Philosopher>, idx: seq<int>): (r: set<ChopStick>)
    reads set p | p in ps
    ensures r <= Sticks(ps)
  {
    if idx == [] then {}
    else
      var i := idx[|idx| - 1];
      SticksAt(ps, idx[..|idx| - 1]) + (if 0 <= i < |ps| then {ps[i].leftChopStick, ps[i].rightChopStick} else {})
  }

  /** Every philosopher holds its left stick and waits for its right one. */
  ghost predicate AllWaiting(ps: seq<Philosopher>)
    reads set p | p in ps
    reads Sticks(ps)
  {
    forall i :: 0 <= i < |ps| ==> ps[i].IsWaiting()
  }

  /** Who holds each stick of `ps`. */
  ghost function Holders(ps: seq<Philosopher>): (h: map<ChopStick, Option<int>>)
    reads set p | p in ps
    reads Sticks(ps)
    ensures h.Keys == Sticks(ps)
  {
    map s | s in Sticks(ps) :: s.activeUser
  }

  /** Every stick of `ps` is held as `h` records: `h` is `Holders(ps)`, stated stick by stick. */
  ghost predicate HeldAsIn(ps: seq<Philosopher>, h: map<ChopStick, Option<int>>)
    reads set p | p in ps
    reads Sticks(ps)
  {
    && h.Keys == Sticks(ps)
    && forall s :: s in Sticks(ps) ==> s.activeUser == h[s]
  }

  /**
   * The sticks of `ps` hold what they held in `h0`, except that those of the
   * philosophers at `idx` have been put down by thread `caller`.
   */
  ghost predicate ReleasedBy(ps: seq<Philosopher>, idx: seq<int>, h0: map<ChopStick, Option<int>>, caller: int)
    reads set p | p in ps
    reads Sticks(ps)
  {
    && h0.Keys == Sticks(ps)
    && forall s :: s in Sticks(ps) ==>
      s.activeUser == (if s in SticksAt(ps, idx) then Released(h0[s], caller) else h0[s])
  }

  /**
   * Whether stick `s`, held by `holder`, is freed when the philosophers at
   * `idx` put down their sticks as their own workers: it is a stick of one
   * of them whose worker is that holder.
   */
  ghost predicate FreedByOwner(ps: seq<Philosopher>, idx: seq<int>, s: ChopStick, holder: Option<int>)
    reads set p | p in ps
  {
    if idx == [] then false
    else
      var k := idx[|idx| - 1];
      || FreedByOwner(ps, idx[..|idx| - 1], s, holder)
      || (&& 0 <= k < |ps| && (s == ps[k].leftChopStick || s == ps[k].rightChopStick)
          && ps[k].workerThread != None && holder == ps[k].workerThread)
  }

  /**
   * The sticks of `ps` hold what they held in `h0`, except those freed by the
   * philosophers at `idx` putting down their sticks as their own workers;
   * each of those philosophers then holds neither of its sticks.
   */
  ghost predicate ForcedFree(ps: seq<Philosopher>, idx: seq<int>, h0: map<ChopStick, Option<int>>)
    reads set p | p in ps
    reads Sticks(ps)
  {
    && h0.Keys == Sticks(ps)
    && (forall s :: s in Sticks(ps) ==>
          s.activeUser == (if FreedByOwner(ps, idx, s, h0[s]) then None else h0[s]))
    && (forall j :: 0 <= j < |ps| && j in idx ==>
          !ps[j].Holds(ps[j].leftChopStick) && !ps[j].Holds(ps[j].rightChopStick))
  }

  /**
   * A put-down by a thread that holds none of the sticks leaves every stick
   * with the holder it had.
   */
  lemma NonHolderReleasesNothing(ps: seq<Philosopher>, idx: seq<int>, h0: map<ChopStick, Option<int>>, caller: int)
    requires ReleasedBy(ps, idx, h0, caller)
    requires forall s :: s in h0 ==> h0[s] != Some(caller)
    ensures Holders(ps) == h0
  {
    forall s | s in Sticks(ps)
      ensures Holders(ps)[s] == h0[s]
    {
    }
  }

  /** Every philosopher's worker holds its left stick and not its right one, by the holders `h`. */
  ghost predicate WaitingUnder(ps: seq<Philosopher>, h: map<ChopStick, Option<int>>)
    reads set p | p in ps
  {
    forall i :: 0 <= i < |ps| ==>
      && ps[i].workerThread != None
      && ps[i].leftChopStick in h && ps[i].rightChopStick in h
      && h[ps[i].leftChopStick] == ps[i].workerThread
      && h[ps[i].rightChopStick] != ps[i].workerThread
  }

  /**
   * Whether the table is deadlocked depends only on who holds which stick, so
   * a step that leaves `Holders` (and the philosophers) alone leaves a
   * deadlock in place.
   */
  lemma DeadlockIsInHolders(ps: seq<Philosopher>)
    ensures AllWaiting(ps) <==> WaitingUnder(ps, Holders(ps))
  {
    forall i | 0 <= i < |ps|
      ensures ps[i].leftChopStick in Sticks(ps) && ps[i].rightChopStick in Sticks(ps)
    {
      assert ps[i] in ps;
    }
  }

  /** A deadlock stays a deadlock while every stick is held as before. */
  lemma DeadlockPersists(ps: seq<Philosopher>, h: map<ChopStick, Option<int>>)
    requires HeldAsIn(ps, h) && WaitingUnder(ps, h)
    ensures AllWaiting(ps)
  {
    forall i | 0 <= i < |ps|
      ensures ps[i].leftChopStick in Sticks(ps) && ps[i].rightChopStick in Sticks(ps)
    {
      assert ps[i] in ps;
    }
  }

  /** A philosopher whose worker does not hold its left stick is not waiting, so there is no deadlock. */
  lemma NotWaitingBreaksDeadlock(ps: seq<Philosopher>, i: int)
    requires 0 <= i < |ps| && !ps[i].Holds(ps[i].leftChopStick)
    ensures !ps[i].IsWaiting()
    ensures !AllWaiting(ps)
  {
  }

  /** Once a philosopher has been made to put down its sticks, the ring is not deadlocked. */
  lemma ForcedFreeBreaksDeadlock(ps: seq<Philosopher>, idx: seq<int>, h0: map<ChopStick, Option<int>>, j: int)
    requires ForcedFree(ps, idx, h0) && 0 <= j < |ps| && j in idx
    ensures !AllWaiting(ps)
  {
    NotWaitingBreaksDeadlock(ps, j);
  }

  /** DeadlockResolver.java line 98: the philosophers released by resolution number `count` (from 0) among `size`. */
  function ResolutionIndices(count: nat, size: int): seq<int>
  {
    Stride(count % 2, size)
  }

  /** Resolution `count` releases exactly the indices below `size` with the parity of `count`. */
  lemma ResolutionMembers(count: nat, size: int, i: int)
    ensures i in ResolutionIndices(count, size) <==> 0 <= i < size && i % 2 == count % 2
  {
    StrideMembers(count % 2, size, i);
  }

  /**
   * Consecutive resolutions alternate: one releases exactly the philosophers
   * the other leaves alone, and every second one repeats.
   */
  lemma ResolutionsAlternate(count: nat, size: int, i: int)
    requires 0 <= i < size
    ensures i in ResolutionIndices(count, size) <==> i !in ResolutionIndices(count + 1, size)
    ensures ResolutionIndices(count + 2, size) == ResolutionIndices(count, size)
  {
    ResolutionMembers(count, size, i);
    ResolutionMembers(count + 1, size, i);
  }

  /** At the table of five, the first resolution releases 0, 2 and 4, the second 1 and 3. */
  lemma ResolutionsAtFive()
    ensures ResolutionIndices(0, 5) == [0, 2, 4]
    ensures ResolutionIndices(1, 5) == [1, 3]
  {
  }

  class DeadlockResolver {
    const master: DiningPhilosopher
    /** Resolve deadlocks when true; otherwise stop the simulation at the first one. */
    const resolveLocks: bool
    /** The id of the resolver's own thread. */
    const thread: int
    var deadlockCount: nat

    /** DeadlockResolver.java lines 23-28: a resolver for `master`, with no deadlock seen yet. */
    constructor (master: DiningPhilosopher, resolveLocks: bool, thread: int)
      ensures this.master == master && this.resolveLocks == resolveLocks && this.thread == thread
      ensures deadlockCount == 0
    {
      this.master := master;
      this.resolveLocks := resolveLocks;
      this.thread := thread;
      deadlockCount := 0;
    }

    /** DeadlockResolver.java lines 71-77: every philosopher is waiting (true when there are none). */
    method IsDeadlocked() returns (r: bool)
      ensures r <==> AllWaiting(master.philosophers)
    {
      var ps := master.philosophers;
      var i := 0;
      while i < |ps|
        invariant 0 <= i <= |ps|
        invariant forall k :: 0 <= k < i ==> ps[k].IsWaiting()
      {
        if !ps[i].IsWaiting() {
          return false;
        }
        i := i + 1;
      }
      return true;
    }

    /**
     * DeadlockResolver.java lines 90-102: every second philosopher, starting at index
     * `deadlockCount % 2`, is told to release its sticks, and the count goes
     * up. The release runs as the resolver's thread, so it puts down only
     * sticks the resolver holds: when it holds none (it never picks one up),
     * nothing changes and a deadlock stays a deadlock.
     */
    method TryResolveDeadlock() returns (ghost released: seq<int>)
      modifies this`deadlockCount, Sticks(master.philosophers)
      ensures deadlockCount == old(deadlockCount) + 1
      ensures released == ResolutionIndices(old(deadlockCount), |master.philosophers|)
      ensures ReleasedBy(master.philosophers, released, old(Holders(master.philosophers)), thread)
      ensures (forall s :: s in old(Holders(master.philosophers)) ==> old(Holders(master.philosophers))[s] != Some(thread)) ==>
                Holders(master.philosophers) == old(Holders(master.philosophers))
    {
      var ps := master.philosophers;
      var size := |ps|;
      ghost var h0 := Holders(ps);
      released := [];
      var i := deadlockCount % 2;
      while i < size
        invariant i >= deadlockCount % 2 && deadlockCount == old(deadlockCount)
        invariant released + Stride(i, size) == Stride(deadlockCount % 2, size)
        invariant ReleasedBy(ps, released, h0, thread)
        decreases size - i
      {
        ReleaseNext(ps, i, released, h0);
        released := released + [i];
        assert Stride(i, size) == [i] + Stride(i + 2, size);
        i := i + 2;
      }
      assert Stride(i, size) == [];
      deadlockCount := deadlockCount + 1;
      if forall s :: s in h0 ==> h0[s] != Some(thread) {
        NonHolderReleasesNothing(ps, released, h0, thread);
      }
    }

    /** DeadlockResolver.java line 99, one philosopher at a time: the sticks of `ps[i]` join those put down as `thread`. */
    method ReleaseNext(ps: seq<Philosopher>, i: int, ghost before: seq<int>, ghost h0: map<ChopStick, Option<int>>)
      requires 0 <= i < |ps| && ReleasedBy(ps, before, h0, thread)
      modifies Sticks(ps)
      ensures ReleasedBy(ps, before + [i], h0, thread)
    {
      assert ps[i] in ps;
      ps[i].ReleaseAllLocks(thread);
      ghost var released := before + [i];
      assert released[..|released| - 1] == before;
      forall s | s in Sticks(ps)
        ensures s in h0 && s.activeUser == (if s in SticksAt(ps, released) then Released(h0[s], thread) else h0[s])
      {
        if s == ps[i].leftChopStick || s == ps[i].rightChopStick {
          PutDownIdempotent(h0[s], thread);
        }
      }
    }

    /**
     * The resolution evidently intended by DeadlockResolver.java lines 90-102: the same philosophers
     * are chosen, but each puts its sticks down as its own worker thread. Every
     * chosen philosopher then holds neither stick, so whenever anyone is chosen
     * the deadlock is broken.
     */
    method ResolveDeadlock() returns (ghost released: seq<int>)
      modifies this`deadlockCount, Sticks(master.philosophers)
      ensures deadlockCount == old(deadlockCount) + 1
      ensures released == ResolutionIndices(old(deadlockCount), |master.philosophers|)
      ensures ForcedFree(master.philosophers, released, old(Holders(master.philosophers)))
      ensures |master.philosophers| > old(deadlockCount) % 2 ==> !AllWaiting(master.philosophers)
    {
      var ps := master.philosophers;
      var size := |ps|;
      ghost var h0 := Holders(ps);
      released := [];
      var i := deadlockCount % 2;
      while i < size
        invariant i >= deadlockCount % 2 && deadlockCount == old(deadlockCount)
        invariant released + Stride(i, size) == Stride(deadlockCount % 2, size)
        invariant ForcedFree(ps, released, h0)
        decreases size - i
      {
        ForceNext(ps, i, released, h0);
        released := released + [i];
        assert Stride(i, size) == [i] + Stride(i + 2, size);
        i := i + 2;
      }
      assert Stride(i, size) == [];
      deadlockCount := deadlockCount + 1;
      if size > old(deadlockCount) % 2 {
        var first := old(deadlockCount) % 2;
        ResolutionMembers(old(deadlockCount), size, first);
        ForcedFreeBreaksDeadlock(ps, released, h0, first);
      }
    }

    /** One philosopher at a time: `ps[i]` is made to put down its sticks as its own worker. */
    method ForceNext(ps: seq<Philosopher>, i: int, ghost before: seq<int>, ghost h0: map<ChopStick, Option<int>>)
      requires 0 <= i < |ps| && ForcedFree(ps, before, h0)
      modifies Sticks(ps)
      ensures ForcedFree(ps, before + [i], h0)
    {
      assert ps[i] in ps;
      ps[i].ForceRelease();
      ghost var released := before + [i];
      assert released[..|released| - 1] == before;
      forall s | s in Sticks(ps)
        ensures s.activeUser == (if FreedByOwner(ps, released, s, h0[s]) then None else h0[s])
      {
      }
      forall j | 0 <= j < |ps| && j in before + [i]
        ensures !ps[j].Holds(ps[j].leftChopStick) && !ps[j].Holds(ps[j].rightChopStick)
      {
        if j != i {
          assert j in before;
          assert ps[j] in ps;
        }
      }
    }

    /**
     * DeadlockResolver.java lines 33-50: one pass of the polling loop, as
     * written. Without a deadlock nothing changes. When `resolveLocks` is
     * set, a deadlock is counted and resolved with `TryResolveDeadlock`: the
     * chosen sticks are put down as the resolver's own thread, so when that
     * thread holds no stick nothing changes and the deadlock is still there
     * on the next pass. Otherwise the master is stopped, the count is left
     * alone and the loop ends (`finished`).
     */
    method Poll() returns (deadlocked: bool, finished: bool)
      modifies this`deadlockCount, master`stopping, Sticks(master.philosophers)
      ensures deadlocked == old(AllWaiting(master.philosophers))
      ensures !deadlocked ==>
                && !finished && deadlockCount == old(deadlockCount) && master.stopping == old(master.stopping)
                && Holders(master.philosophers) == old(Holders(master.philosophers))
      ensures deadlocked && !resolveLocks ==>
                && finished && master.stopping && deadlockCount == old(deadlockCount)
                && Holders(master.philosophers) == old(Holders(master.philosophers))
      ensures deadlocked && resolveLocks ==>
                && !finished && deadlockCount == old(deadlockCount) + 1 && master.stopping == old(master.stopping)
      ensures deadlocked && resolveLocks
              && (forall s :: s in old(Holders(master.philosophers)) ==> old(Holders(master.philosophers))[s] != Some(thread)) ==>
                && Holders(master.philosophers) == old(Holders(master.philosophers))
                && AllWaiting(master.philosophers)
    {
      ghost var ps, h0 := master.philosophers, Holders(master.philosophers);
      deadlocked := IsDeadlocked();
      assert Holders(ps) == h0;
      finished := false;
      if deadlocked {
        finished := OnDeadlock();
      }
    }

    /**
     * DeadlockResolver.java lines 34-47: what a pass does once a deadlock is
     * seen. With `resolveLocks` set the deadlock is counted and resolved with
     * `TryResolveDeadlock`; when the resolver's own thread holds no stick
     * that changes nothing, so the deadlock is still there. Otherwise the
     * master is stopped and the loop ends.
     */
    method OnDeadlock() returns (finished: bool)
      requires AllWaiting(master.philosophers)
      modifies this`deadlockCount, master`stopping, Sticks(master.philosophers)
      ensures !resolveLocks ==>
                && finished && master.stopping && deadlockCount == old(deadlockCount)
                && Holders(master.philosophers) == old(Holders(master.philosophers))
      ensures resolveLocks ==>
                && !finished && deadlockCount == old(deadlockCount) + 1 && master.stopping == old(master.stopping)
      ensures resolveLocks
              && (forall s :: s in old(Holders(master.philosophers)) ==> old(Holders(master.philosophers))[s] != Some(thread)) ==>
                && Holders(master.philosophers) == old(Holders(master.philosophers))
                && AllWaiting(master.philosophers)
    {
      ghost var ps := master.philosophers;
      DeadlockIsInHolders(ps);
      if resolveLocks {
        ghost var released := TryResolveDeadlock();
        DeadlockIsInHolders(ps);
        finished := false;
      } else {
        master.Stop();
        finished := true;
      }
    }

    /**
     * The polling pass evidently intended by DeadlockResolver.java lines
     * 33-50: the same as `Poll`, but a deadlock is resolved with
     * `ResolveDeadlock`, so that whenever some philosopher is chosen the
     * deadlock is broken.
     */
    method CorrectedPoll() returns (finished: bool)
      modifies this`deadlockCount, master`stopping, Sticks(master.philosophers)
      ensures !old(AllWaiting(master.philosophers)) ==>
                && !finished && deadlockCount == old(deadlockCount) && master.stopping == old(master.stopping)
                && Holders(master.philosophers) == old(Holders(master.philosophers))
      ensures old(AllWaiting(master.philosophers)) && !resolveLocks ==>
                && finished && master.stopping && deadlockCount == old(deadlockCount)
                && Holders(master.philosophers) == old(Holders(master.philosophers))
      ensures old(AllWaiting(master.philosophers)) && resolveLocks ==>
                && !finished && deadlockCount == old(deadlockCount) + 1 && master.stopping == old(master.stopping)
                && ForcedFree(master.philosophers, ResolutionIndices(old(deadlockCount), |master.philosophers|),
                              old(Holders(master.philosophers)))
                && (|master.philosophers| > old(deadlockCount) % 2 ==> !AllWaiting(master.philosophers))
    {
      ghost var ps, h0 := master.philosophers, Holders(master.philosophers);
      var deadlocked := IsDeadlocked();
      assert Holders(ps) == h0;
      finished := false;
      if deadlocked {
        if resolveLocks {
          ghost var released := ResolveDeadlock();
        } else {
          master.Stop();
          finished := true;
        }
      }
    }
  }
}
