/**
 * A chopstick of the dining philosophers (ml224ec_pa2/src/ChopStick.java).
 *
 * The stick remembers which thread holds it. Threads are not modelled: every
 * operation takes the calling thread's id explicitly, and "no holder" (the
 * Java null) is `None`.
 */
module ChopSticks {
  import opened Options

  /** The holder after `caller` runs `pickUp()`, and what `pickUp()` returns. */
  function Picked(holder: Option<int>, caller: int): (r: (Option<int>, bool))
    ensures r.1 <==> holder == None || holder == Some(caller)
    ensures r.1 ==> r.0 == Some(caller)
    ensures !r.1 ==> r.0 == holder
  {
    if holder == None then (Some(caller), true)
    else if holder == Some(caller) then (holder, true)
    else (holder, false)
  }

  /** The holder after `caller` runs `putDown()`. */
  function Released(holder: Option<int>, caller: int): (r: Option<int>)
    ensures holder == Some(caller) ==> r == None
    ensures holder != Some(caller) ==> r == holder
  {
    if holder == Some(caller) then None else holder
  }

  /** Picking up a stick one already holds changes nothing, so `pickUp()` is idempotent. */
  lemma PickUpIdempotent(holder: Option<int>, caller: int)
    ensures Picked(Picked(holder, caller).0, caller) == (Picked(holder, caller).0, Picked(holder, caller).1)
  {
  }

  /** Putting a stick down twice is putting it down once. */
  lemma PutDownIdempotent(holder: Option<int>, caller: int)
    ensures Released(Released(holder, caller), caller) == Released(holder, caller)
  {
  }

  /** A successful pick-up followed by a put-down by the same thread frees the stick. */
  lemma PickThenPut(holder: Option<int>, caller: int)
    requires Picked(holder, caller).1
    ensures Released(Picked(holder, caller).0, caller) == None
  {
  }

  /**
   * Only a thread itself can make it a holder or stop it being one: a
   * pick-up or put-down by any other thread leaves "held by `w`" as it was.
   */
  lemma OthersCannotTouch(holder: Option<int>, caller: int, w: int)
    requires caller != w
    ensures Picked(holder, caller).0 == Some(w) <==> holder == Some(w)
    ensures Released(holder, caller) == Some(w) <==> holder == Some(w)
  {
  }

  class ChopStick {
    const id: int
    /** The id of the thread holding the stick, `None` while it is free. */
    var activeUser: Option<int>

    /** ChopStick.java lines 4-6: a new stick with the given id, held by no one. */
    constructor (id: int)
      ensures this.id == id && activeUser == None
    {
      this.id := id;
      activeUser := None;
    }

    /** ChopStick.java lines 29-32: whether `t` is the holder (`None` asks whether the stick is free). */
    predicate IsUsedBy(t: Option<int>)
      reads this
      ensures IsUsedBy(t) && t != None ==>
                Picked(activeUser, t.value) == (t, true) && Released(activeUser, t.value) == None
      ensures IsUsedBy(t) && t == None ==> forall c :: Picked(activeUser, c) == (Some(c), true)
    {
      activeUser == t
    }

    /** A stick is used by at most one thread at a time. */
    lemma AtMostOneUser(a: int, b: int)
      requires IsUsedBy(Some(a)) && IsUsedBy(Some(b))
      ensures a == b
    {
    }

    /**
     * ChopStick.java lines 44-54: a free stick is claimed by the caller; its holder may pick
     * it up again; anyone else is refused and the stick is left as it was.
     */
    method PickUp(caller: int) returns (ok: bool)
      modifies this
      ensures (activeUser, ok) == Picked(old(activeUser), caller)
    {
      if activeUser == None {
        activeUser := Some(caller);
        return true;
      }
      if Some(caller) == activeUser {
        return true;
      }
      return false;
    }

    /** ChopStick.java lines 60-64: the holder frees the stick; a put-down by anyone else does nothing. */
    method PutDown(caller: int)
      modifies this
      ensures activeUser == Released(old(activeUser), caller)
    {
      if activeUser == Some(caller) {
        activeUser := None;
      }
    }
  }
}
