/**
 * A dining philosopher (ml224ec_pa2/src/Philosopher.java).
 *
 * The philosopher's thread is not modelled: `Begin` records the worker
 * thread's id, as the first line of `run()` does. A THINK or EAT pass of the
 * `run()` loop is one call of `ThinkingTurn` or `EatingTurn`; a HUNGRY pass
 * is one or more calls of `HungryTurn`, since a refused pick-up ends the call
 * and the next call resumes the spin at the same stick.
 * Sleeping is left out; the random draw behind each thinking or eating period
 * and the wall-clock time a hungry turn took (`elapsed`) are parameters.
 */
module Philosophers {
  import opened Options
  import opened ChopSticks

  /** What the philosopher does next (the `Intent` enum). */
  datatype Intent = Think | Hungry | Eat

  /** Philosopher.java lines 128, 158, 176: THINK is followed by HUNGRY, HUNGRY by EAT, and EAT by THINK. */
  function NextIntent(i: Intent): (r: Intent)
    ensures r != i
  {
    match i
    case Think => Hungry
    case Hungry => Eat
    case Eat => Think
  }

  /** The intents form one cycle of length three through all of them. */
  lemma IntentCycle(i: Intent, j: Intent)
    ensures NextIntent(NextIntent(NextIntent(i))) == i
    ensures NextIntent(NextIntent(i)) != i
    ensures j == i || j == NextIntent(i) || j == NextIntent(NextIntent(i))
  {
  }

  /**
   * Where the philosopher is inside the HUNGRY case (Philosopher.java lines 142-158): not yet
   * entered, at the test of the outer loop, spinning on the left stick, or
   * spinning on the right stick.
   */
  datatype Stage = Start | Check | SpinLeft | SpinRight

  /** Philosopher.java lines 223-226: a period of 1 to 1000 ms, from a draw of `nextInt(1000)`. */
  function NextTime(draw: int): (t: int)
    requires 0 <= draw < 1000
    ensures 1 <= t <= 1000
    ensures t - 1 == draw
  {
    draw + 1
  }

  class Philosopher {
    const id: int
    const leftChopStick: ChopStick
    const rightChopStick: ChopStick
    var numberOfEatingTurns: int
    var numberOfThinkingTurns: int
    var numberOfHungryTurns: int
    /** Time totals, in whole milliseconds. */
    var thinkingTime: int
    var eatingTime: int
    var hungryTime: int
    /** The worker thread's id, `None` until `run()` starts. */
    var workerThread: Option<int>
    /** The local `intent` of `run()`. */
    var intent: Intent
    /** The position of `run()` inside the HUNGRY case. */
    var stage: Stage

    /** Philosopher.java lines 42-56: a philosopher with its two sticks and zero turns and times. */
    constructor (id: int, leftChopStick: ChopStick, rightChopStick: ChopStick)
      ensures this.id == id && this.leftChopStick == leftChopStick && this.rightChopStick == rightChopStick
      ensures numberOfEatingTurns == 0 && numberOfThinkingTurns == 0 && numberOfHungryTurns == 0
      ensures thinkingTime == 0 && eatingTime == 0 && hungryTime == 0
      ensures workerThread == None && intent == Think && stage == Start
      ensures Unstarted()
    {
      this.id := id;
      this.leftChopStick := leftChopStick;
      this.rightChopStick := rightChopStick;
      numberOfEatingTurns, numberOfThinkingTurns, numberOfHungryTurns := 0, 0, 0;
      thinkingTime, eatingTime, hungryTime := 0, 0, 0;
      workerThread := None;
      intent := Think;
      stage := Start;
    }

    /** No worker yet, about to think, and no turn taken and no time spent. */
    predicate Unstarted()
      reads this
    {
      && workerThread == None && intent == Think && stage == Start
      && numberOfThinkingTurns == 0 && numberOfHungryTurns == 0 && numberOfEatingTurns == 0
      && thinkingTime == 0 && eatingTime == 0 && hungryTime == 0
    }

    /**
     * Philosopher.java lines 202-208: the philosopher holds its left stick and waits for the
     * right one. False before `run()` has recorded the worker thread.
     */
    predicate IsWaiting()
      reads this, leftChopStick, rightChopStick
      ensures workerThread == None ==> !IsWaiting()
      ensures workerThread != None ==>
                (IsWaiting() <==> Holds(leftChopStick) && !Holds(rightChopStick))
    {
      if workerThread == None then false
      else leftChopStick.IsUsedBy(workerThread) && !rightChopStick.IsUsedBy(workerThread)
    }

    /** Whether the worker thread holds `s`. */
    predicate Holds(s: ChopStick)
      reads this, s
    {
      workerThread != None && s.activeUser == workerThread
    }

    /**
     * The sticks the worker holds match where it is in the cycle: none while
     * thinking or before it has picked up its left stick, the left one while
     * spinning on the right one, both while eating.
     */
    ghost predicate HoldsAsIntended()
      reads this, leftChopStick, rightChopStick
    {
      && workerThread != None
      && (intent == Think ==> stage == Start)
      && (intent == Eat ==> stage == Start)
      && (intent == Think || (intent == Hungry && stage != SpinRight) ==> !Holds(leftChopStick) && !Holds(rightChopStick))
      && (intent == Hungry && stage == SpinRight ==> Holds(leftChopStick))
      && (intent == Eat ==> Holds(leftChopStick) && Holds(rightChopStick))
    }

    /** Philosopher.java lines 100-103: `run()` records its thread and starts out thinking. */
    method Begin(worker: int)
      modifies this`workerThread, this`intent, this`stage
      ensures workerThread == Some(worker) && intent == Think && stage == Start
      ensures leftChopStick.activeUser != Some(worker) && rightChopStick.activeUser != Some(worker) ==> HoldsAsIntended()
    {
      workerThread := Some(worker);
      intent := Think;
      stage := Start;
    }

    /** Philosopher.java lines 213-217: put down the left stick, then the right one, as thread `caller`. */
    method ReleaseAllLocks(caller: int)
      modifies leftChopStick, rightChopStick
      ensures leftChopStick.activeUser == Released(old(leftChopStick.activeUser), caller)
      ensures rightChopStick.activeUser == Released(old(rightChopStick.activeUser), caller)
    {
      leftChopStick.PutDown(caller);
      rightChopStick.PutDown(caller);
      PutDownIdempotent(old(leftChopStick.activeUser), caller);
    }

    /**
     * The forced release the deadlock resolver evidently intends (see
     * `ReleaseAllLocks`, which puts down only what the caller holds): the
     * sticks are put down on behalf of the philosopher's own worker thread,
     * whoever calls, so that afterwards the philosopher holds neither stick.
     */
    method ForceRelease()
      modifies leftChopStick, rightChopStick
      ensures workerThread != None ==>
                && leftChopStick.activeUser == Released(old(leftChopStick.activeUser), workerThread.value)
                && rightChopStick.activeUser == Released(old(rightChopStick.activeUser), workerThread.value)
      ensures workerThread == None ==> unchanged(leftChopStick, rightChopStick)
      ensures !Holds(leftChopStick) && !Holds(rightChopStick) && !IsWaiting()
    {
      if workerThread != None {
        ReleaseAllLocks(workerThread.value);
      }
    }

    /**
     * Philosopher.java lines 113 and 122-130: a thinking turn, counted, its
     * period of `NextTime(draw)` ms added, then hungry.
     */
    method ThinkingTurn(draw: int)
      requires 0 <= draw < 1000
      requires intent == Think && HoldsAsIntended()
      modifies this`numberOfThinkingTurns, this`thinkingTime, this`intent
      ensures numberOfThinkingTurns == old(numberOfThinkingTurns) + 1
      ensures thinkingTime == old(thinkingTime) + NextTime(draw)
      ensures old(thinkingTime) + 1 <= thinkingTime <= old(thinkingTime) + 1000
      ensures intent == NextIntent(old(intent)) && stage == Start
      ensures HoldsAsIntended()
    {
      var time := NextTime(draw);
      numberOfThinkingTurns := numberOfThinkingTurns + 1;
      thinkingTime := thinkingTime + time;
      intent := Hungry;
    }

    /**
     * Philosopher.java lines 141-160: the HUNGRY case, run until it has to wait. Entering the
     * case counts a hungry turn. While the worker holds neither stick, it
     * spins on the left stick, then on the right one; a refused pick-up
     * leaves it spinning at that stick (`fed` is false) and a later call
     * resumes there. Once both sticks are held the outer loop ends, the
     * elapsed time is added and the philosopher eats.
     */
    method HungryTurn(elapsed: int) returns (fed: bool)
      requires intent == Hungry && HoldsAsIntended()
      modifies this`numberOfHungryTurns, this`hungryTime, this`intent, this`stage
      modifies leftChopStick, rightChopStick
      ensures numberOfHungryTurns == old(numberOfHungryTurns) + (if old(stage) == Start then 1 else 0)
      ensures fed ==> && intent == NextIntent(old(intent)) && stage == Start
                      && hungryTime == old(hungryTime) + elapsed
                      && Holds(leftChopStick) && Holds(rightChopStick)
      ensures !fed ==> && intent == Hungry && (stage == SpinLeft || stage == SpinRight)
                       && hungryTime == old(hungryTime)
      ensures !fed && stage == SpinLeft ==>
                leftChopStick.activeUser != None && leftChopStick.activeUser != workerThread
      ensures !fed && stage == SpinRight ==>
                rightChopStick.activeUser != None && rightChopStick.activeUser != workerThread
      ensures || leftChopStick.activeUser == old(leftChopStick.activeUser)
              || (old(leftChopStick.activeUser) == None && leftChopStick.activeUser == workerThread)
      ensures || rightChopStick.activeUser == old(rightChopStick.activeUser)
              || (old(rightChopStick.activeUser) == None && rightChopStick.activeUser == workerThread)
      ensures HoldsAsIntended()
    {
      var w := workerThread.value;
      if stage == Start {
        numberOfHungryTurns := numberOfHungryTurns + 1;
        stage := Check;
      }
      if stage == Check && !leftChopStick.IsUsedBy(Some(w)) && !rightChopStick.IsUsedBy(Some(w)) {
        stage := SpinLeft;
      }
      if stage == SpinLeft {
        var ok := leftChopStick.PickUp(w);
        if ok {
          stage := SpinRight;
        }
      }
      if stage == SpinRight {
        var ok := rightChopStick.PickUp(w);
        if ok {
          stage := Check;
        }
      }
      fed := stage == Check && (leftChopStick.IsUsedBy(Some(w)) || rightChopStick.IsUsedBy(Some(w)));
      if fed {
        hungryTime := hungryTime + elapsed;
        intent := Eat;
        stage := Start;
      }
    }

    /**
     * Philosopher.java lines 113 and 168-178: an eating turn, counted, both
     * sticks put down, its period of `NextTime(draw)` ms added, then thinking.
     */
    method EatingTurn(draw: int)
      requires 0 <= draw < 1000
      requires intent == Eat && HoldsAsIntended()
      modifies this`numberOfEatingTurns, this`eatingTime, this`intent
      modifies leftChopStick, rightChopStick
      ensures numberOfEatingTurns == old(numberOfEatingTurns) + 1
      ensures eatingTime == old(eatingTime) + NextTime(draw)
      ensures old(eatingTime) + 1 <= eatingTime <= old(eatingTime) + 1000
      ensures intent == NextIntent(old(intent))
      ensures leftChopStick.activeUser == None && rightChopStick.activeUser == None
      ensures HoldsAsIntended()
    {
      var time := NextTime(draw);
      numberOfEatingTurns := numberOfEatingTurns + 1;
      ReleaseAllLocks(workerThread.value);
      eatingTime := eatingTime + time;
      intent := Think;
    }
  }
}
