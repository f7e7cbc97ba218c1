/**
 * The table of the dining philosophers (ml224ec_pa2/src/DiningPhilosopher.java):
 * the ring of sticks and philosophers, the order in which the philosophers'
 * threads are launched, and the stop flag.
 */
module Dining {
  import opened Options
  import opened ChopSticks
  import opened Philosophers

  /** DiningPhilosopher.java line 93: the index of philosopher `i`'s right stick, `i + 1` except for the last philosopher. */
  function RightIndex(i: int, n: int): int
  {
    if i < n - 1 then i + 1 else 0
  }

  /** The right stick of philosopher `i` is stick `(i + 1) mod n`. */
  lemma RightIndexIsSuccessor(i: int, n: int)
    requires 0 <= i < n
    ensures 0 <= RightIndex(i, n) < n
    ensures RightIndex(i, n) == (i + 1) % n
  {
  }

  /**
   * With at least three philosophers, philosopher `i` (sticks `i` and its
   * right index) and its right neighbour share exactly one stick.
   */
  lemma NeighboursShareOneStick(i: int, n: int)
    requires 3 <= n && 0 <= i < n
    ensures var j := RightIndex(i, n);
            {i, j} * {j, RightIndex(j, n)} == {j}
  {
    var j := RightIndex(i, n);
    var k := RightIndex(j, n);
    assert i != j;
    assert i != k;
  }

  /** The indices `from`, `from + 2`, `from + 4`, ... below `n`, ascending. */
  function Stride(from: nat, n: int): (r: seq<int>)
    decreases n - from
  {
    if from >= n then [] else [from] + Stride(from + 2, n)
  }

  /** An index is in a stride exactly when it lies in range and has the stride's parity. */
  lemma {:induction false} StrideMembers(from: nat, n: int, i: int)
    ensures i in Stride(from, n) <==> from <= i < n && (i - from) % 2 == 0
    decreases n - from
  {
    if from < n {
      StrideMembers(from + 2, n, i);
    }
  }

  /** A stride is strictly increasing and starts at or after `from`. */
  lemma {:induction false} StrideAscending(from: nat, n: int)
    ensures forall j :: 0 <= j < |Stride(from, n)| ==> Stride(from, n)[j] >= from
    ensures forall j, k :: 0 <= j < k < |Stride(from, n)| ==> Stride(from, n)[j] < Stride(from, n)[k]
    decreases n - from
  {
    if from < n {
      StrideAscending(from + 2, n);
      var s := Stride(from, n);
      assert s == [from] + Stride(from + 2, n);
      forall j, k | 0 <= j < k < |s|
        ensures s[j] < s[k]
      {
        assert s[k] == Stride(from + 2, n)[k - 1];
        if j > 0 {
          assert s[j] == Stride(from + 2, n)[j - 1];
        }
      }
    }
  }

  /**
   * The launch order of DiningPhilosopher.java lines 44-55 (odd indices ascending, then even ones)
   * holds every index below `n` exactly once.
   */
  lemma LaunchOrderIsPermutation(n: nat)
    ensures forall i :: i in Stride(1, n) + Stride(0, n) <==> 0 <= i < n
    ensures forall j, k :: 0 <= j < k < |Stride(1, n) + Stride(0, n)| ==>
              (Stride(1, n) + Stride(0, n))[j] != (Stride(1, n) + Stride(0, n))[k]
  {
    var odds, evens := Stride(1, n), Stride(0, n);
    var s := odds + evens;
    forall i
      ensures i in s <==> 0 <= i < n
    {
      StrideMembers(1, n, i);
      StrideMembers(0, n, i);
    }
    StrideAscending(1, n);
    StrideAscending(0, n);
    forall j, k | 0 <= j < k < |s|
      ensures s[j] != s[k]
    {
      if j < |odds| <= k {
        StrideMembers(1, n, s[j]);
        StrideMembers(0, n, s[k]);
        assert s[j] in odds && s[k] in evens;
      } else if k < |odds| {
        assert s[j] == odds[j] && s[k] == odds[k];
      } else {
        assert s[j] == evens[j - |odds|] && s[k] == evens[k - |odds|];
      }
    }
  }

  class DiningPhilosopher {
    const numberOfPhilosophers: nat
    var simulationTime: int
    var seed: int
    var philosophers: seq<Philosopher>
    var chopSticks: seq<ChopStick>
    /** Set when the deadlock resolver asks the simulation to end. */
    var stopping: bool

    /** DiningPhilosopher.java lines 16-30: five philosophers, 10000 ms, seed 0, not stopping; nothing built yet. */
    constructor ()
      ensures numberOfPhilosophers == 5 && simulationTime == 10000 && seed == 0
      ensures philosophers == [] && chopSticks == [] && !stopping
    {
      numberOfPhilosophers := 5;
      simulationTime := 10000;
      seed := 0;
      philosophers := [];
      chopSticks := [];
      stopping := false;
    }

    /**
     * The table as `initialize` lays it: stick `i` has id `i`, philosopher `i`
     * has id `i`, stick `i` on its left and stick `i + 1` (stick 0 for the
     * last) on its right.
     */
    ghost predicate Ring()
      reads this, philosophers
    {
      && |chopSticks| == numberOfPhilosophers
      && |philosophers| == numberOfPhilosophers
      && (forall i :: 0 <= i < |chopSticks| ==> chopSticks[i].id == i)
      && (forall i :: 0 <= i < |philosophers| ==> SeatedAt(philosophers[i], i))
    }

    /** Philosopher `p` has id `k`, stick `k` on its left and the next stick on its right. */
    ghost predicate SeatedAt(p: Philosopher, k: int)
      reads this
    {
      && p.id == k
      && 0 <= k < |chopSticks|
      && p.leftChopStick == chopSticks[k]
      && 0 <= RightIndex(k, numberOfPhilosophers) < |chopSticks|
      && p.rightChopStick == chopSticks[RightIndex(k, numberOfPhilosophers)]
    }

    /** In the ring, each philosopher's right stick is its right neighbour's left stick. */
    lemma NeighbourShares(i: int)
      requires Ring() && 0 <= i < numberOfPhilosophers
      ensures 0 <= RightIndex(i, numberOfPhilosophers) < numberOfPhilosophers
      ensures philosophers[i].rightChopStick == philosophers[RightIndex(i, numberOfPhilosophers)].leftChopStick
    {
    }

    /**
     * DiningPhilosopher.java lines 76-97: builds `numberOfPhilosophers` new sticks, all free, then
     * the philosophers around them, in their initial state.
     */
    method Initialize(simulationTime: int, randomSeed: int)
      modifies this`simulationTime, this`seed, this`philosophers, this`chopSticks
      ensures this.simulationTime == simulationTime && seed == randomSeed
      ensures Ring()
      ensures forall i :: 0 <= i < |chopSticks| ==> fresh(chopSticks[i]) && chopSticks[i].activeUser == None
      ensures forall i :: 0 <= i < |philosophers| ==> fresh(philosophers[i]) && philosophers[i].Unstarted()
    {
      this.simulationTime := simulationTime;
      seed := randomSeed;
      AddChopSticks();
      AddPhilosophers();
    }

    /** DiningPhilosopher.java lines 80-81 and 86-88: empty lists, then `numberOfPhilosophers` new free sticks, stick `i` with id `i`. */
    method AddChopSticks()
      modifies this`philosophers, this`chopSticks
      ensures philosophers == [] && |chopSticks| == numberOfPhilosophers
      ensures forall k :: 0 <= k < |chopSticks| ==> chopSticks[k].id == k && fresh(chopSticks[k]) && chopSticks[k].activeUser == None
    {
      philosophers := [];
      chopSticks := [];
      var i := 0;
      while i < numberOfPhilosophers
        invariant 0 <= i <= numberOfPhilosophers
        invariant |chopSticks| == i && philosophers == []
        invariant forall k :: 0 <= k < i ==> chopSticks[k].id == k && fresh(chopSticks[k]) && chopSticks[k].activeUser == None
      {
        var c := new ChopStick(i);
        chopSticks := chopSticks + [c];
        i := i + 1;
      }
    }

    /** DiningPhilosopher.java lines 89-96: philosopher `i` gets stick `i` on its left and the next stick on its right. */
    method AddPhilosophers()
      requires philosophers == [] && |chopSticks| == numberOfPhilosophers
      requires forall k :: 0 <= k < |chopSticks| ==> chopSticks[k].id == k
      modifies this`philosophers
      ensures Ring()
      ensures forall i :: 0 <= i < |philosophers| ==> fresh(philosophers[i]) && philosophers[i].Unstarted()
    {
      var i := 0;
      while i < numberOfPhilosophers
        invariant 0 <= i <= numberOfPhilosophers
        invariant |philosophers| == i
        invariant forall k :: 0 <= k < i ==>
                    fresh(philosophers[k]) && philosophers[k].Unstarted() && SeatedAt(philosophers[k], k)
      {
        var c0 := chopSticks[i];
        var c1 := chopSticks[if i < numberOfPhilosophers - 1 then i + 1 else 0];
        var p := new Philosopher(i, c0, c1);
        philosophers := philosophers + [p];
        i := i + 1;
      }
    }

    /**
     * DiningPhilosopher.java lines 44-55: the order in which `start()` hands the philosophers to the
     * executor: odd indices ascending, then even indices ascending.
     */
    method LaunchOrder() returns (order: seq<int>)
      ensures order == Stride(1, numberOfPhilosophers) + Stride(0, numberOfPhilosophers)
      ensures forall i :: i in order <==> 0 <= i < numberOfPhilosophers
      ensures forall j, k :: 0 <= j < k < |order| ==> order[j] != order[k]
    {
      var odds: seq<int> := [];
      var i := 1;
      while i < numberOfPhilosophers
        invariant i >= 1 && i % 2 == 1
        invariant odds + Stride(i, numberOfPhilosophers) == Stride(1, numberOfPhilosophers)
        decreases numberOfPhilosophers - i
      {
        assert Stride(i, numberOfPhilosophers) == [i] + Stride(i + 2, numberOfPhilosophers);
        odds := odds + [i];
        i := i + 2;
      }
      var evens: seq<int> := [];
      i := 0;
      while i < numberOfPhilosophers
        invariant i >= 0 && i % 2 == 0
        invariant evens + Stride(i, numberOfPhilosophers) == Stride(0, numberOfPhilosophers)
        decreases numberOfPhilosophers - i
      {
        assert Stride(i, numberOfPhilosophers) == [i] + Stride(i + 2, numberOfPhilosophers);
        evens := evens + [i];
        i := i + 2;
      }
      assert odds == Stride(1, numberOfPhilosophers) && evens == Stride(0, numberOfPhilosophers);
      order := odds + evens;
      LaunchOrderIsPermutation(numberOfPhilosophers);
    }

    /** DiningPhilosopher.java lines 130-133: raise the stop flag. */
    method Stop()
      modifies this`stopping
      ensures stopping
    {
      stopping := true;
    }
  }
}
