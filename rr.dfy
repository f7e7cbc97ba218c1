/**
 * The round-robin CPU scheduling simulator: processes arrive at given times,
 * wait in a FIFO queue and receive at most `tq` time units each time they are
 * dispatched; the simulator fills in completion, turnaround and waiting times
 * and records a Gantt event list.
 */
module RoundRobin {

  import opened Options

  /** One entry of the Gantt event list: an idle tick, or a slice of CPU time given to process `pid`. */
  datatype Event = Idle(start: int, end: int) | Ran(pid: int, start: int, end: int)

  /**
   * A process to be scheduled. Identity, arrival and burst time are fixed at
   * construction; the scheduler updates the remaining burst and the statistics.
   */
  class Process {
    const processId: int
    const arrivalTime: int
    const burstTime: int
    var remainingBurstTime: int
    var completedTime: int
    var turnaroundTime: int
    var waitingTime: int

    constructor (processId: int, arrivalTime: int, burstTime: int)
      ensures this.processId == processId && this.arrivalTime == arrivalTime && this.burstTime == burstTime
      ensures remainingBurstTime == burstTime
      ensures completedTime == 0 && turnaroundTime == 0 && waitingTime == 0
    {
      this.processId := processId;
      this.arrivalTime := arrivalTime;
      this.burstTime := burstTime;
      remainingBurstTime := burstTime;
      completedTime, turnaroundTime, waitingTime := 0, 0, 0;
    }
  }

  // ---------------------------------------------------------------------------
  // Occurrences of a process in a list
  // ---------------------------------------------------------------------------

  /** How many times `x` occurs in `s`. */
  ghost function Count(s: seq<Process>, x: Process): nat
  {
    if s == [] then 0 else Count(s[..|s| - 1], x) + (if s[|s| - 1] == x then 1 else 0)
  }

  lemma CountSingle(y: Process, x: Process)
    ensures Count([y], x) == if y == x then 1 else 0
  {
    assert [y][..0] == [];
  }

  lemma {:induction false} CountAppend(s: seq<Process>, t: seq<Process>, x: Process)
    ensures Count(s + t, x) == Count(s, x) + Count(t, x)
    decreases |t|
  {
    if t == [] {
      assert s + t == s;
    } else {
      assert (s + t)[..|s + t| - 1] == s + t[..|t| - 1];
      CountAppend(s, t[..|t| - 1], x);
    }
  }

  /** `Count` agrees with the multiplicity in the multiset of the list. */
  lemma {:induction false} CountIsMultiplicity(s: seq<Process>, x: Process)
    ensures Count(s, x) == multiset(s)[x]
    decreases |s|
  {
    if s != [] {
      var init := s[..|s| - 1];
      CountIsMultiplicity(init, x);
      assert s == init + [s[|s| - 1]];
      assert multiset(s) == multiset(init) + multiset{s[|s| - 1]};
    }
  }

  lemma CountPositive(s: seq<Process>, x: Process)
    ensures Count(s, x) > 0 <==> x in s
  {
    CountIsMultiplicity(s, x);
  }

  // ---------------------------------------------------------------------------
  // Sorting by arrival time (a stable sort, as Java's List.sort is)
  // ---------------------------------------------------------------------------

  ghost predicate SortedByArrival(s: seq<Process>)
  {
    forall i, j :: 0 <= i < j < |s| ==> s[i].arrivalTime <= s[j].arrivalTime
  }

  /** The processes of `s` whose arrival time is `a`, in the order of `s`. */
  ghost function WithArrival(s: seq<Process>, a: int): seq<Process>
  {
    if s == [] then []
    else WithArrival(s[..|s| - 1], a) + (if s[|s| - 1].arrivalTime == a then [s[|s| - 1]] else [])
  }

  lemma {:induction false} WithArrivalConcat(s: seq<Process>, t: seq<Process>, a: int)
    ensures WithArrival(s + t, a) == WithArrival(s, a) + WithArrival(t, a)
    decreases |t|
  {
    if t == [] {
      assert s + t == s;
    } else {
      assert (s + t)[..|s + t| - 1] == s + t[..|t| - 1];
      WithArrivalConcat(s, t[..|t| - 1], a);
    }
  }

  lemma {:induction false} WithArrivalNone(s: seq<Process>, a: int)
    requires forall q :: q in s ==> q.arrivalTime != a
    ensures WithArrival(s, a) == []
    decreases |s|
  {
    if s != [] {
      WithArrivalNone(s[..|s| - 1], a);
    }
  }

  lemma InsertionSorted(s: seq<Process>, j: nat, p: Process)
    requires SortedByArrival(s) && j <= |s|
    requires forall k :: 0 <= k < j ==> s[k].arrivalTime <= p.arrivalTime
    requires j < |s| ==> s[j].arrivalTime > p.arrivalTime
    ensures SortedByArrival(s[..j] + [p] + s[j..])
  {
    var r := s[..j] + [p] + s[j..];
    forall a, b | 0 <= a < b < |r|
      ensures r[a].arrivalTime <= r[b].arrivalTime
    {
      if b < j {
        assert r[a] == s[a] && r[b] == s[b];
      } else if b == j {
        assert r[a] == s[a] && r[b] == p;
      } else if a < j {
        assert r[a] == s[a] && r[b] == s[b - 1];
      } else if a == j {
        assert r[a] == p && r[b] == s[b - 1];
      } else {
        assert r[a] == s[a - 1] && r[b] == s[b - 1];
      }
    }
  }

  lemma {:induction false} InsertionKeepsGroups(s: seq<Process>, j: nat, p: Process, a: int)
    requires j <= |s|
    requires forall k :: j <= k < |s| ==> s[k].arrivalTime > p.arrivalTime
    ensures WithArrival(s[..j] + [p] + s[j..], a) == WithArrival(s + [p], a)
  {
    var front, back := s[..j], s[j..];
    assert s == front + back;
    WithArrivalConcat(front + [p], back, a);
    WithArrivalConcat(front, [p], a);
    WithArrivalConcat(front, back, a);
    WithArrivalConcat(s, [p], a);
    var wf, wp, wb := WithArrival(front, a), WithArrival([p], a), WithArrival(back, a);
    assert WithArrival(front + [p] + back, a) == wf + wp + wb;
    assert WithArrival(s + [p], a) == wf + wb + wp;
    if a == p.arrivalTime {
      WithArrivalNone(back, a);
      assert wf + wp + wb == wf + wb + wp;
    } else {
      assert [p][..0] == [];
      assert wp == [];
      assert wf + wp + wb == wf + wb + wp;
    }
  }

  /**
   * Inserts `p` after every element whose arrival time is not later than its
   * own, so that equal arrival times keep their order.
   */
  method InsertByArrival(s: seq<Process>, p: Process) returns (r: seq<Process>)
    requires SortedByArrival(s)
    ensures SortedByArrival(r)
    ensures multiset(r) == multiset(s) + multiset{p}
    ensures forall a :: WithArrival(r, a) == WithArrival(s + [p], a)
  {
    var j := 0;
    while j < |s| && s[j].arrivalTime <= p.arrivalTime
      invariant 0 <= j <= |s|
      invariant forall k :: 0 <= k < j ==> s[k].arrivalTime <= p.arrivalTime
    {
      j := j + 1;
    }
    r := s[..j] + [p] + s[j..];
    assert s == s[..j] + s[j..];
    InsertionSorted(s, j, p);
    forall a
      ensures WithArrival(r, a) == WithArrival(s + [p], a)
    {
      InsertionKeepsGroups(s, j, p, a);
    }
  }

  /**
   * Sorts the processes by arrival time. The result is ordered, is a
   * permutation of the input, and keeps processes with equal arrival times in
   * their input order (stability).
   */
  method SortByArrival(s: seq<Process>) returns (r: seq<Process>)
    ensures SortedByArrival(r)
    ensures multiset(r) == multiset(s)
    ensures forall a :: WithArrival(r, a) == WithArrival(s, a)
  {
    r := [];
    var i := 0;
    while i < |s|
      invariant 0 <= i <= |s|
      invariant SortedByArrival(r)
      invariant multiset(r) == multiset(s[..i])
      invariant forall a :: WithArrival(r, a) == WithArrival(s[..i], a)
    {
      assert s[..i + 1] == s[..i] + [s[i]];
      r := InsertByArrival(r, s[i]);
      i := i + 1;
    }
    assert s[..|s|] == s;
  }

  // ---------------------------------------------------------------------------
  // Admission of arrivals
  // ---------------------------------------------------------------------------

  /** The pending processes that have arrived by time `ct`, in list order. */
  function Arrived(pending: seq<Process>, ct: int): (r: seq<Process>)
    ensures forall q :: q in r ==> q in pending && q.arrivalTime <= ct
    ensures |r| <= |pending|
  {
    if pending == [] then []
    else
      var last := pending[|pending| - 1];
      Arrived(pending[..|pending| - 1], ct) + (if ct >= last.arrivalTime then [last] else [])
  }

  /** The pending processes that have not yet arrived at time `ct`, in list order. */
  function NotArrived(pending: seq<Process>, ct: int): (r: seq<Process>)
    ensures forall q :: q in r ==> q in pending && q.arrivalTime > ct
    ensures |r| <= |pending|
  {
    if pending == [] then []
    else
      var last := pending[|pending| - 1];
      NotArrived(pending[..|pending| - 1], ct) + (if ct >= last.arrivalTime then [] else [last])
  }

  /**
   * One pass of the iterator loop over the pending list: every pending process
   * whose arrival time has come is taken out, in list order, to be appended
   * to the scheduling queue; the others stay pending, in their order.
   */
  method AdmitArrivals(pending: seq<Process>, ct: int) returns (arrived: seq<Process>, rest: seq<Process>)
    ensures arrived == Arrived(pending, ct)
    ensures rest == NotArrived(pending, ct)
  {
    arrived, rest := [], [];
    var i := 0;
    while i < |pending|
      invariant 0 <= i <= |pending|
      invariant arrived == Arrived(pending[..i], ct)
      invariant rest == NotArrived(pending[..i], ct)
    {
      var pp := pending[i];
      assert pending[..i + 1][..i] == pending[..i];
      if ct >= pp.arrivalTime {
        arrived := arrived + [pp];
      } else {
        rest := rest + [pp];
      }
      i := i + 1;
    }
    assert pending[..|pending|] == pending;
  }

  /** Admission splits the pending list: every process ends up on exactly one side. */
  lemma {:induction false} AdmissionSplits(pending: seq<Process>, ct: int, x: Process)
    ensures Count(Arrived(pending, ct), x) + Count(NotArrived(pending, ct), x) == Count(pending, x)
    decreases |pending|
  {
    if pending != [] {
      var init, last := pending[..|pending| - 1], pending[|pending| - 1];
      AdmissionSplits(init, ct, x);
      if ct >= last.arrivalTime {
        assert Arrived(pending, ct) == Arrived(init, ct) + [last];
        assert NotArrived(pending, ct) == NotArrived(init, ct);
        CountAppend(Arrived(init, ct), [last], x);
      } else {
        assert Arrived(pending, ct) == Arrived(init, ct);
        assert NotArrived(pending, ct) == NotArrived(init, ct) + [last];
        CountAppend(NotArrived(init, ct), [last], x);
      }
      CountSingle(last, x);
    }
  }

  /** When nothing has arrived, the pending list is left exactly as it was. */
  lemma {:induction false} NothingArrived(pending: seq<Process>, ct: int)
    requires Arrived(pending, ct) == []
    ensures NotArrived(pending, ct) == pending
    decreases |pending|
  {
    if pending != [] {
      var init, last := pending[..|pending| - 1], pending[|pending| - 1];
      assert pending == init + [last];
      var tailPart := if ct >= last.arrivalTime then [last] else [];
      assert Arrived(pending, ct) == Arrived(init, ct) + tailPart;
      assert Arrived(init, ct) == [] && tailPart == [];
      NothingArrived(init, ct);
    }
  }

  /** Admission neither creates nor loses work. */
  lemma {:induction false} AdmissionKeepsLoad(pending: seq<Process>, ct: int, rem: map<Process, int>)
    ensures Load(Arrived(pending, ct), rem) + Load(NotArrived(pending, ct), rem) == Load(pending, rem)
    decreases |pending|
  {
    if pending != [] {
      var init, last := pending[..|pending| - 1], pending[|pending| - 1];
      AdmissionKeepsLoad(init, ct, rem);
      assert Load([last], rem) == Weight(RemOf(rem, last)) by {
        assert [last][..0] == [];
      }
      if ct >= last.arrivalTime {
        assert Arrived(pending, ct) == Arrived(init, ct) + [last];
        assert NotArrived(pending, ct) == NotArrived(init, ct);
        LoadConcat(Arrived(init, ct), [last], rem);
      } else {
        assert Arrived(pending, ct) == Arrived(init, ct);
        assert NotArrived(pending, ct) == NotArrived(init, ct) + [last];
        LoadConcat(NotArrived(init, ct), [last], rem);
      }
    }
  }

  // ---------------------------------------------------------------------------
  // Dispatch
  // ---------------------------------------------------------------------------

  /** The time a dispatched process runs: its remaining burst, capped at the quantum. */
  function Quantum(remaining: int, tq: int): (act: int)
    ensures act <= tq && act <= remaining
    ensures act == remaining || act == tq
    ensures remaining - act >= 0
    ensures remaining - act == 0 <==> remaining <= tq
  {
    if remaining > tq then tq else remaining
  }

  // ---------------------------------------------------------------------------
  // Termination measure
  // ---------------------------------------------------------------------------

  /** Dispatches still owed to a process with this remaining burst, bounded from above. */
  function Weight(remaining: int): nat
  {
    (if remaining > 0 then remaining else 0) + 1
  }

  /** The remaining burst the ghost mirror `rem` records for `q`. */
  ghost function RemOf(rem: map<Process, int>, q: Process): int
  {
    if q in rem then rem[q] else 0
  }

  ghost function Load(s: seq<Process>, rem: map<Process, int>): nat
  {
    if s == [] then 0 else Load(s[..|s| - 1], rem) + Weight(RemOf(rem, s[|s| - 1]))
  }

  lemma {:induction false} LoadConcat(s: seq<Process>, t: seq<Process>, rem: map<Process, int>)
    ensures Load(s + t, rem) == Load(s, rem) + Load(t, rem)
    decreases |t|
  {
    if t == [] {
      assert s + t == s;
    } else {
      assert (s + t)[..|s + t| - 1] == s + t[..|t| - 1];
      LoadConcat(s, t[..|t| - 1], rem);
    }
  }

  /** How far the clock still has to go before every pending process has arrived. */
  function Gap(pending: seq<Process>, ct: int): nat
  {
    if pending == [] then 0
    else
      var last := pending[|pending| - 1];
      Gap(pending[..|pending| - 1], ct) + (if last.arrivalTime > ct then last.arrivalTime - ct else 0)
  }

  /** An idle tick brings the clock strictly closer to the next arrivals. */
  lemma {:induction false} IdleTickShrinksGap(pending: seq<Process>, ct: int)
    requires pending != []
    requires forall q :: q in pending ==> q.arrivalTime > ct
    ensures Gap(pending, ct + 1) < Gap(pending, ct)
    decreases |pending|
  {
    var init := pending[..|pending| - 1];
    if init != [] {
      IdleTickShrinksGap(init, ct);
    }
  }

  // ---------------------------------------------------------------------------
  // The Gantt event list
  // ---------------------------------------------------------------------------

  /** Total CPU time given to `q` by the events it owns. */
  ghost function RunTime(events: seq<Event>, owners: seq<Process?>, q: Process): int
    requires |events| == |owners|
  {
    if events == [] then 0
    else
      var n := |events| - 1;
      RunTime(events[..n], owners[..n], q) + (if owners[n] == q then events[n].end - events[n].start else 0)
  }

  /** The end of the last event owned by `q`, if there is one. */
  ghost function LastEnd(events: seq<Event>, owners: seq<Process?>, q: Process): Option<int>
    requires |events| == |owners|
  {
    if events == [] then None
    else
      var n := |events| - 1;
      if owners[n] == q then Some(events[n].end) else LastEnd(events[..n], owners[..n], q)
  }

  /** Total length of the events recorded under process id `pid`. */
  ghost function PidRunTime(events: seq<Event>, pid: int): int
  {
    if events == [] then 0
    else
      var n := |events| - 1;
      PidRunTime(events[..n], pid) + (if events[n].Ran? && events[n].pid == pid then events[n].end - events[n].start else 0)
  }

  /** The events tile the time line from 0 up to `ct`. */
  ghost predicate Tiles(events: seq<Event>, ct: int)
  {
    && (events == [] ==> ct == 0)
    && (events != [] ==> events[0].start == 0 && events[|events| - 1].end == ct)
    && (forall i :: 0 < i < |events| ==> events[i].start == events[i - 1].end)
  }

  /**
   * An event agrees with its owner: idle events have no owner and last one tick;
   * a slice carries its owner's id and lasts at most one quantum.
   */
  ghost predicate Agrees(e: Event, owner: Process?, tq: int)
  {
    && (owner == null <==> e.Idle?)
    && (e.Idle? ==> e.end == e.start + 1)
    && (owner != null ==> e.pid == owner.processId && e.end - e.start <= tq)
  }

  /** The statistics a completed process carries. */
  ghost predicate Finished(q: Process, events: seq<Event>, owners: seq<Process?>)
    requires |events| == |owners|
    reads q
  {
    && q.remainingBurstTime == 0
    && LastEnd(events, owners, q) == Some(q.completedTime)
    && q.turnaroundTime == q.completedTime - q.arrivalTime
    && q.waitingTime == q.turnaroundTime - q.burstTime
  }

  lemma AppendEvent(events: seq<Event>, owners: seq<Process?>, e: Event, o: Process?, q: Process)
    requires |events| == |owners|
    ensures RunTime(events + [e], owners + [o], q) ==
            RunTime(events, owners, q) + (if o == q then e.end - e.start else 0)
    ensures LastEnd(events + [e], owners + [o], q) == if o == q then Some(e.end) else LastEnd(events, owners, q)
  {
    assert (events + [e])[..|events|] == events;
    assert (owners + [o])[..|owners|] == owners;
  }

  /**
   * When process ids are unique, the time recorded in the event list under a
   * process's id is exactly the time the events owned by that process took.
   */
  lemma {:induction false} PidRunTimeIsRunTime(events: seq<Event>, owners: seq<Process?>, tq: int, ps: seq<Process>, q: Process)
    requires |events| == |owners|
    requires q in ps
    requires forall i :: 0 <= i < |events| ==> Agrees(events[i], owners[i], tq)
    requires forall i :: 0 <= i < |owners| && owners[i] != null ==> owners[i] in ps
    requires forall a, b :: a in ps && b in ps && a.processId == b.processId ==> a == b
    ensures PidRunTime(events, q.processId) == RunTime(events, owners, q)
    decreases |events|
  {
    if events != [] {
      var n := |events| - 1;
      PidRunTimeIsRunTime(events[..n], owners[..n], tq, ps, q);
      assert Agrees(events[n], owners[n], tq);
    }
  }

  /** The event list tiles [0, ct], every event agrees with its owner, and every owner is one of `all`. */
  ghost predicate TimelineOf(events: seq<Event>, owners: seq<Process?>, ct: int, tq: int, all: seq<Process>)
  {
    && |owners| == |events|
    && Tiles(events, ct)
    && (forall i :: 0 <= i < |events| ==> Agrees(events[i], owners[i], tq))
    && (forall i :: 0 <= i < |owners| && owners[i] != null ==> owners[i] in all)
  }

  /** Recording an event that starts at the current time extends the time line to its end. */
  lemma TimelineAppend(events: seq<Event>, owners: seq<Process?>, ct: int, tq: int, all: seq<Process>,
                       e: Event, o: Process?)
    requires TimelineOf(events, owners, ct, tq, all)
    requires e.start == ct && Agrees(e, o, tq) && (o != null ==> o in all)
    ensures TimelineOf(events + [e], owners + [o], e.end, tq, all)
  {
    var events', owners' := events + [e], owners + [o];
    forall i | 0 <= i < |events'|
      ensures Agrees(events'[i], owners'[i], tq)
    {
      if i < |events| {
        assert events'[i] == events[i] && owners'[i] == owners[i];
      }
    }
    forall i | 0 < i < |events'|
      ensures events'[i].start == events'[i - 1].end
    {
      if i < |events| {
        assert events'[i] == events[i] && events'[i - 1] == events[i - 1];
      }
    }
    forall i | 0 <= i < |owners'| && owners'[i] != null
      ensures owners'[i] in all
    {
      if i < |owners| {
        assert owners'[i] == owners[i];
      }
    }
  }

  /** Burst conservation: CPU time received so far plus the remaining burst is the initial burst. */
  ghost predicate AccountingOf(events: seq<Event>, owners: seq<Process?>, init: map<Process, int>,
                               rem: map<Process, int>, all: seq<Process>)
  {
    && |owners| == |events|
    && (forall q :: q in all ==> q in init && q in rem && RunTime(events, owners, q) + rem[q] == init[q])
  }

  /** Recording a slice moves its length from the owner's remaining burst to its CPU time. */
  lemma AccountingAppend(events: seq<Event>, owners: seq<Process?>, init: map<Process, int>,
                         rem: map<Process, int>, all: seq<Process>, e: Event, o: Process?)
    requires AccountingOf(events, owners, init, rem, all)
    requires o != null ==> o in all
    ensures o != null ==> o in rem
    ensures AccountingOf(events + [e], owners + [o], init,
                         if o == null then rem else rem[o := rem[o] - (e.end - e.start)], all)
  {
    forall q | q in all
      ensures RunTime(events + [e], owners + [o], q) == RunTime(events, owners, q) + (if o == q then e.end - e.start else 0)
    {
      AppendEvent(events, owners, e, o, q);
    }
  }

  // ---------------------------------------------------------------------------
  // The scheduler
  // ---------------------------------------------------------------------------

  /**
   * Every process occurs exactly once among the pending list, the queue, the
   * process just run (`p`) and the done list, and nowhere else.
   */
  ghost predicate Partitioned(pending: seq<Process>, queue: seq<Process>, p: Process?, done: seq<Process>,
                              all: seq<Process>)
  {
    && (forall x :: x in all + pending + queue + done ==>
          && Count(pending, x) + Count(queue, x) + (if p == x then 1 else 0) + Count(done, x) == Count(all, x)
          && Count(all, x) <= 1)
    && (p != null ==> p in all)
  }

  /** The counting in `Partitioned` holds for every process, listed or not. */
  lemma PartitionedAt(pending: seq<Process>, queue: seq<Process>, p: Process?, done: seq<Process>,
                      all: seq<Process>, x: Process)
    requires Partitioned(pending, queue, p, done, all)
    ensures Count(pending, x) + Count(queue, x) + (if p == x then 1 else 0) + Count(done, x) == Count(all, x)
    ensures Count(all, x) <= 1
  {
    if !(x in all || x in pending || x in queue || x in done) {
      CountPositive(all, x);
      CountPositive(pending, x);
      CountPositive(queue, x);
      CountPositive(done, x);
    }
  }

  ghost predicate Distinct(s: seq<Process>)
  {
    forall i, j :: 0 <= i < j < |s| ==> s[i] != s[j]
  }

  lemma {:induction false} DistinctCount(s: seq<Process>, x: Process)
    requires Distinct(s)
    ensures Count(s, x) <= 1
    decreases |s|
  {
    if s != [] {
      var init := s[..|s| - 1];
      DistinctCount(init, x);
      if s[|s| - 1] == x {
        CountPositive(init, x);
      }
    }
  }

  /** At the start of the run, every (distinct) process is pending. */
  lemma InitialPartition(original: seq<Process>, sorted: seq<Process>)
    requires Distinct(original) && multiset(sorted) == multiset(original)
    ensures Partitioned(sorted, [], null, [], sorted)
  {
    forall x
      ensures Count(sorted, x) <= 1
    {
      CountIsMultiplicity(sorted, x);
      CountIsMultiplicity(original, x);
      DistinctCount(original, x);
    }
  }

  /** When nothing is pending, queued or running, every process is done. */
  lemma NothingLeft(done: seq<Process>, all: seq<Process>)
    requires Partitioned([], [], null, done, all)
    ensures forall q :: q in all ==> q in done
  {
    forall q | q in all
      ensures q in done
    {
      PartitionedAt([], [], null, done, all, q);
      CountPositive(all, q);
      CountPositive(done, q);
      assert Count([], q) == 0;
    }
  }

  /** Moving the arrivals and the preempted process into the queue keeps the partition. */
  lemma RequeuePartition(pending: seq<Process>, ct: int, queue: seq<Process>, back: seq<Process>, p: Process?,
                         done: seq<Process>, all: seq<Process>)
    requires Partitioned(pending, queue, p, done, all)
    requires back == if p == null then [] else [p]
    ensures Partitioned(NotArrived(pending, ct), queue + Arrived(pending, ct) + back, null, done, all)
  {
    var arrived := Arrived(pending, ct);
    forall x
      ensures Count(NotArrived(pending, ct), x) + Count(queue + arrived + back, x) + Count(done, x) == Count(all, x)
      ensures Count(all, x) <= 1
    {
      PartitionedAt(pending, queue, p, done, all, x);
      AdmissionSplits(pending, ct, x);
      CountAppend(queue, arrived, x);
      CountAppend(queue + arrived, back, x);
      if p != null {
        CountSingle(p, x);
      }
    }
  }

  /** Polling the head of the queue: it is a process of the run, found nowhere else, and now running. */
  lemma PollPartition(pending: seq<Process>, queue: seq<Process>, done: seq<Process>, all: seq<Process>)
    requires queue != [] && Partitioned(pending, queue, null, done, all)
    ensures queue[0] in all && queue[0] !in pending && queue[0] !in queue[1..] && queue[0] !in done
    ensures Partitioned(pending, queue[1..], queue[0], done, all)
  {
    var d, tail := queue[0], queue[1..];
    assert queue == [d] + tail;
    forall x
      ensures Count(pending, x) + Count(tail, x) + (if d == x then 1 else 0) + Count(done, x) == Count(all, x)
      ensures Count(all, x) <= 1
    {
      PartitionedAt(pending, queue, null, done, all, x);
      CountAppend([d], tail, x);
      CountSingle(d, x);
    }
    PartitionedAt(pending, queue, null, done, all, d);
    CountAppend([d], tail, d);
    CountSingle(d, d);
    CountPositive(all, d);
    CountPositive(pending, d);
    CountPositive(tail, d);
    CountPositive(done, d);
  }

  /** A running process that has completed moves to the done list. */
  lemma RetirePartition(pending: seq<Process>, queue: seq<Process>, d: Process, done: seq<Process>, all: seq<Process>)
    requires Partitioned(pending, queue, d, done, all)
    ensures d !in done
    ensures Partitioned(pending, queue, null, done + [d], all)
  {
    forall x
      ensures Count(pending, x) + Count(queue, x) + Count(done + [d], x) == Count(all, x)
      ensures Count(all, x) <= 1
    {
      PartitionedAt(pending, queue, d, done, all, x);
      CountAppend(done, [d], x);
      CountSingle(d, x);
    }
    PartitionedAt(pending, queue, d, done, all, d);
    CountPositive(done, d);
  }

  /** Work still to be done: the weights of the pending, queued and preempted processes. */
  ghost function Measure(pending: seq<Process>, queue: seq<Process>, p: Process?, rem: map<Process, int>): nat
  {
    Load(pending, rem) + Load(queue, rem) + (if p == null then 0 else Weight(RemOf(rem, p)))
  }

  /** ... and keeps the work still to be done. */
  lemma RequeueLoad(pending: seq<Process>, queue: seq<Process>, arrived: seq<Process>, rest: seq<Process>,
                    back: seq<Process>, p: Process?, rem: map<Process, int>)
    requires Load(arrived, rem) + Load(rest, rem) == Load(pending, rem)
    requires back == if p == null then [] else [p]
    ensures Measure(rest, queue + arrived + back, null, rem) == Measure(pending, queue, p, rem)
  {
    LoadConcat(queue, arrived, rem);
    LoadConcat(queue + arrived, back, rem);
    if p != null {
      assert Load([p], rem) == Weight(RemOf(rem, p)) by {
        assert [p][..0] == [];
      }
    }
  }

  /** Changing the recorded burst of a process outside `s` leaves the load of `s` alone. */
  lemma {:induction false} LoadOutside(s: seq<Process>, rem: map<Process, int>, d: Process, v: int)
    requires d !in s
    ensures Load(s, rem[d := v]) == Load(s, rem)
    decreases |s|
  {
    if s != [] {
      LoadOutside(s[..|s| - 1], rem, d, v);
    }
  }

  /** Running the head for one quantum strictly shrinks the work still to be done. */
  lemma DispatchShrinksMeasure(pending: seq<Process>, d: Process, queue: seq<Process>, rem: map<Process, int>,
                               tq: int, act: int, p': Process?)
    requires d !in pending && d !in queue
    requires tq >= 1 && act == Quantum(RemOf(rem, d), tq)
    requires p' == (if RemOf(rem, d) - act >= 1 then d else null)
    ensures Measure(pending, queue, p', rem[d := RemOf(rem, d) - act]) < Measure(pending, queue, d, rem)
  {
    var rem' := rem[d := RemOf(rem, d) - act];
    LoadOutside(pending, rem, d, RemOf(rem, d) - act);
    LoadOutside(queue, rem, d, RemOf(rem, d) - act);
    assert RemOf(rem', d) == RemOf(rem, d) - act;
  }

  /** Polling moves the head's weight from the queue to the running process. */
  lemma PollKeepsMeasure(pending: seq<Process>, queue: seq<Process>, rem: map<Process, int>)
    requires queue != []
    ensures Measure(pending, queue, null, rem) == Measure(pending, queue[1..], queue[0], rem)
  {
    var d, tail := queue[0], queue[1..];
    assert queue == [d] + tail;
    LoadConcat([d], tail, rem);
    assert Load([d], rem) == Weight(RemOf(rem, d)) by {
      assert [d][..0] == [];
    }
  }

  class RR {
    var processes: seq<Process>
    const tq: int
    var schedulingQueue: seq<Process>
    var eventList: seq<Event>
    /** For each event, the process it was recorded for (null for an idle tick). */
    ghost var owners: seq<Process?>

    constructor (processes: seq<Process>, tq: int)
      ensures this.processes == processes && this.tq == tq
      ensures schedulingQueue == [] && eventList == [] && owners == []
    {
      this.processes := processes;
      this.tq := tq;
      schedulingQueue := [];
      eventList := [];
      owners := [];
    }

    /**
     * Every process is pending, queued, the one just run (`p`), or done,
     * and none occurs twice.
     */
    ghost predicate Partition(pending: seq<Process>, p: Process?, done: seq<Process>)
      reads this`schedulingQueue, this`processes
    {
      Partitioned(pending, schedulingQueue, p, done, processes)
    }

    /** The ghost map `rem` mirrors the remaining bursts. */
    ghost predicate Mirrors(rem: map<Process, int>)
      reads this`processes, processes
    {
      forall q :: q in processes ==> q in rem && rem[q] == q.remainingBurstTime
    }

    /** The event list tiles [0, ct] and every event agrees with its owner. */
    ghost predicate Timeline(ct: int)
      reads this`eventList, this`owners, this`processes
    {
      TimelineOf(eventList, owners, ct, tq, processes)
    }

    /** Burst conservation: CPU time received so far plus remaining burst is the initial burst. */
    ghost predicate Accounting(init: map<Process, int>, rem: map<Process, int>)
      reads this`eventList, this`owners, this`processes
    {
      AccountingOf(eventList, owners, init, rem, processes)
    }

    /** Every done process carries its completion statistics. */
    ghost predicate DoneFinished(done: seq<Process>)
      reads this`eventList, this`owners, this`processes, done
    {
      && |owners| == |eventList|
      && (forall q :: q in done ==> q in processes && Finished(q, eventList, owners))
    }

    /** The bookkeeping that holds throughout an iteration of the main loop of `run()`. */
    ghost predicate Core(pending: seq<Process>, p: Process?, ct: int, done: seq<Process>,
                         init: map<Process, int>, rem: map<Process, int>)
      reads this, processes, done
    {
      Partition(pending, p, done) && Mirrors(rem) && Timeline(ct) && Accounting(init, rem) && DoneFinished(done)
    }

    /** The state of `run()` at the head of its main loop: the process just run still has burst left. */
    ghost predicate Inv(pending: seq<Process>, p: Process?, ct: int, done: seq<Process>,
                        init: map<Process, int>, rem: map<Process, int>)
      reads this, processes, done
    {
      Core(pending, p, ct, done, init, rem) && (p != null ==> RemOf(rem, p) >= 1)
    }

    /** The queue an iteration polls from: the queue, then the arrivals, then the preempted process. */
    ghost function QueueBeforePoll(pending: seq<Process>, p: Process?, ct: int): (r: seq<Process>)
      reads this`schedulingQueue, p
      ensures forall q :: q in r ==> q in schedulingQueue || q in pending || q == p
    {
      schedulingQueue + Arrived(pending, ct) + (if p != null && p.remainingBurstTime > 0 then [p] else [])
    }

    /** The work left to the process an iteration polls (0 when the queue it polls from is empty). */
    ghost function HeadBurst(pending: seq<Process>, p: Process?, ct: int): int
      reads this`schedulingQueue, p, set q | q in schedulingQueue, set q | q in pending
    {
      var q := QueueBeforePoll(pending, p, ct);
      if q == [] then 0 else q[0].remainingBurstTime
    }

    /** RR.java lines 55-67: admit the arrivals, then re-enqueue the preempted process behind them. */
    method Admit(pending: seq<Process>, p: Process?, ct: int, ghost done: seq<Process>,
                 ghost init: map<Process, int>, ghost rem: map<Process, int>)
      returns (rest: seq<Process>)
      requires Inv(pending, p, ct, done, init, rem)
      modifies this`schedulingQueue
      ensures rest == NotArrived(pending, ct)
      ensures schedulingQueue == old(QueueBeforePoll(pending, p, ct))
      ensures Inv(rest, null, ct, done, init, rem)
      ensures Measure(rest, schedulingQueue, null, rem) == Measure(pending, old(schedulingQueue), p, rem)
      ensures Arrived(pending, ct) == [] ==> rest == pending
    {
      ghost var queue := schedulingQueue;
      var arrived;
      arrived, rest := AdmitArrivals(pending, ct);
      var requeue := p != null && p.remainingBurstTime > 0;
      ghost var back := if requeue then [p] else [];
      assert requeue <==> p != null;
      RequeuePartition(pending, ct, queue, back, p, done, processes);
      AdmissionKeepsLoad(pending, ct, rem);
      RequeueLoad(pending, queue, arrived, rest, back, p, rem);
      if arrived == [] {
        NothingArrived(pending, ct);
      }
      schedulingQueue := schedulingQueue + arrived;
      // the preempted process goes behind the arrivals while it has burst left
      if requeue {
        schedulingQueue := schedulingQueue + [p];
      }
      assert schedulingQueue == queue + arrived + back;
    }

    /** RR.java lines 72-76: nothing is ready, so the clock ticks once and an idle event is recorded. */
    method RecordIdleTick(pending: seq<Process>, ct: int, ghost done: seq<Process>,
                          ghost init: map<Process, int>, ghost rem: map<Process, int>)
      returns (ct': int)
      requires Inv(pending, null, ct, done, init, rem) && schedulingQueue == []
      modifies this`eventList, this`owners
      ensures ct' == ct + 1
      ensures eventList == old(eventList) + [Idle(ct, ct + 1)]
      ensures Inv(pending, null, ct', done, init, rem)
    {
      ghost var oldEvents, oldOwners := eventList, owners;
      ct' := ct + 1;
      eventList := eventList + [Idle(ct' - 1, ct')];
      owners := owners + [null];
      forall q | q in processes
        ensures RunTime(eventList, owners, q) == RunTime(oldEvents, oldOwners, q)
        ensures LastEnd(eventList, owners, q) == LastEnd(oldEvents, oldOwners, q)
      {
        AppendEvent(oldEvents, oldOwners, Idle(ct, ct + 1), null, q);
      }
    }

    /**
     * RR.java line 69: take the head of the queue, or null when the queue is empty.
     * The head becomes the running process, carrying its share of the work
     * still to be done with it.
     */
    method Poll(pending: seq<Process>, ct: int, ghost done: seq<Process>,
                ghost init: map<Process, int>, ghost rem: map<Process, int>)
      returns (head: Process?)
      requires Inv(pending, null, ct, done, init, rem)
      modifies this`schedulingQueue
      ensures old(schedulingQueue) == [] ==> head == null && schedulingQueue == []
      ensures old(schedulingQueue) != [] ==> head == old(schedulingQueue[0]) && schedulingQueue == old(schedulingQueue[1..])
      ensures head == null ==> Inv(pending, null, ct, done, init, rem)
      ensures head != null ==> Core(pending, head, ct, done, init, rem)
      ensures Measure(pending, schedulingQueue, head, rem) == Measure(pending, old(schedulingQueue), null, rem)
    {
      if schedulingQueue == [] {
        head := null;
      } else {
        PollPartition(pending, schedulingQueue, done, processes);
        PollKeepsMeasure(pending, schedulingQueue, rem);
        head := schedulingQueue[0];
        schedulingQueue := schedulingQueue[1..];
      }
    }

    /** RR.java lines 79-89: run the polled process for one quantum and record the slice in the event list. */
    method RunQuantum(d: Process, pending: seq<Process>, ct: int, ghost done: seq<Process>,
                      ghost init: map<Process, int>, ghost rem: map<Process, int>)
      returns (ct': int, ghost rem': map<Process, int>)
      requires tq >= 1
      requires Core(pending, d, ct, done, init, rem)
      modifies this`eventList, this`owners, d`remainingBurstTime
      ensures var act := Quantum(old(d.remainingBurstTime), tq);
              && ct' == ct + act
              && d.remainingBurstTime == old(d.remainingBurstTime) - act
              && eventList == old(eventList) + [Ran(d.processId, ct, ct + act)]
      ensures Core(pending, d, ct', done, init, rem')
      ensures LastEnd(eventList, owners, d) == Some(ct')
      ensures Measure(pending, schedulingQueue, if d.remainingBurstTime >= 1 then d else null, rem')
              < Measure(pending, schedulingQueue, d, rem)
    {
      ghost var oldEvents, oldOwners := eventList, owners;
      PartitionedAt(pending, schedulingQueue, d, done, processes, d);
      CountPositive(pending, d);
      CountPositive(schedulingQueue, d);
      CountPositive(done, d);
      var bt := d.remainingBurstTime;
      assert RemOf(rem, d) == bt;
      // the length of this slice: the quantum, or less if the burst ends sooner
      var act := Quantum(bt, tq);
      rem' := rem[d := bt - act];
      DispatchShrinksMeasure(pending, d, schedulingQueue, rem, tq, act, if bt - act >= 1 then d else null);
      ghost var e := Ran(d.processId, ct, ct + act);
      TimelineAppend(eventList, owners, ct, tq, processes, e, d);
      AccountingAppend(eventList, owners, init, rem, processes, e, d);
      forall q | q in done
        ensures LastEnd(oldEvents + [e], oldOwners + [d], q) == LastEnd(oldEvents, oldOwners, q)
      {
        AppendEvent(oldEvents, oldOwners, e, d, q);
      }
      AppendEvent(oldEvents, oldOwners, e, d, d);

      ct' := ct + act;
      d.remainingBurstTime := bt - act;
      eventList := eventList + [Ran(d.processId, ct' - act, ct')];
      owners := owners + [d];
      forall q | q in processes
        ensures q in rem' && rem'[q] == q.remainingBurstTime
      {
        if q != d {
          assert old(q.remainingBurstTime) == rem[q];
        }
      }
      forall q | q in done
        ensures Finished(q, eventList, owners)
      {
        assert old(Finished(q, oldEvents, oldOwners));
      }
    }

    /**
     * RR.java lines 91-98: a process whose burst is used up gets its completion,
     * turnaround and waiting times and is no longer the running process.
     */
    method CompleteIfDone(d: Process, pending: seq<Process>, ct: int, ghost done: seq<Process>,
                          ghost init: map<Process, int>, ghost rem: map<Process, int>)
      returns (p': Process?, ghost done': seq<Process>)
      requires Core(pending, d, ct, done, init, rem)
      requires LastEnd(eventList, owners, d) == Some(ct)
      requires d.remainingBurstTime >= 0
      modifies d`completedTime, d`turnaroundTime, d`waitingTime
      ensures d.remainingBurstTime < 1 ==>
                && p' == null && done' == done + [d]
                && d.completedTime == ct
                && d.turnaroundTime == d.completedTime - d.arrivalTime
                && d.waitingTime == d.turnaroundTime - d.burstTime
      ensures d.remainingBurstTime >= 1 ==> p' == d && done' == done && unchanged(d)
      ensures Inv(pending, p', ct, done', init, rem)
    {
      // a process with no burst left is retired with its statistics
      if d.remainingBurstTime < 1 {
        RetirePartition(pending, schedulingQueue, d, done, processes);
        d.completedTime := ct;
        d.turnaroundTime := d.completedTime - d.arrivalTime;
        d.waitingTime := d.turnaroundTime - d.burstTime;
        p', done' := null, done + [d];
        forall q | q in done
          ensures Finished(q, eventList, owners)
        {
          assert old(Finished(q, eventList, owners));
        }
      } else {
        assert d in processes;
        p', done' := d, done;
      }
    }

    /**
     * One iteration of the main loop (RR.java lines 55-98): admit arrivals, poll the
     * queue, then either record an idle tick or run the polled process for a
     * quantum. With `q` the queue after admission: when it is empty the clock
     * ticks once and an idle event is recorded; otherwise its head runs for one
     * quantum, the event is recorded, and the head stays the running process
     * exactly while it has work left. The bookkeeping invariant is kept, and
     * the work still to be done shrinks, or stays while the clock moves
     * towards the next arrival.
     */
    method Step(pending: seq<Process>, p: Process?, ct: int, ghost done: seq<Process>,
                ghost init: map<Process, int>, ghost rem: map<Process, int>)
      returns (pending': seq<Process>, p': Process?, ct': int, ghost done': seq<Process>, ghost rem': map<Process, int>,
               ghost q: seq<Process>, ghost burst: int)
      requires tq >= 1
      requires Inv(pending, p, ct, done, init, rem)
      requires pending != [] || schedulingQueue != [] || p != null
      modifies this`schedulingQueue, this`eventList, this`owners, processes
      ensures q == old(QueueBeforePoll(pending, p, ct)) && burst == old(HeadBurst(pending, p, ct))
      ensures pending' == NotArrived(pending, ct)
      ensures q == [] ==>
                && schedulingQueue == [] && p' == null && ct' == ct + 1
                && eventList == old(eventList) + [Idle(ct, ct + 1)]
      ensures q != [] ==>
                && schedulingQueue == q[1..]
                && ct' == ct + Quantum(burst, tq)
                && q[0].remainingBurstTime == burst - (ct' - ct)
                && eventList == old(eventList) + [Ran(q[0].processId, ct, ct')]
                && (p' == null <==> q[0].remainingBurstTime < 1)
                && (p' != null ==> p' == q[0])
      ensures q != [] && q[0].remainingBurstTime < 1 ==>
                && done' == done + [q[0]]
                && q[0].completedTime == ct'
                && q[0].turnaroundTime == q[0].completedTime - q[0].arrivalTime
                && q[0].waitingTime == q[0].turnaroundTime - q[0].burstTime
      ensures q != [] && q[0].remainingBurstTime >= 1 ==> done' == done
      ensures forall x :: x in processes && (q == [] || x != q[0]) ==> unchanged(x)
      ensures Inv(pending', p', ct', done', init, rem')
      ensures || Measure(pending', schedulingQueue, p', rem') < Measure(pending, old(schedulingQueue), p, rem)
              || (&& Measure(pending', schedulingQueue, p', rem') == Measure(pending, old(schedulingQueue), p, rem)
                  && Gap(pending', ct') < Gap(pending, ct))
    {
      q, burst := QueueBeforePoll(pending, p, ct), HeadBurst(pending, p, ct);
      var d;
      pending', d := AdmitThenPoll(pending, p, ct, done, init, rem);
      p', ct', done', rem' := RunOrIdle(d, pending', ct, done, init, rem);
    }

    /**
     * RR.java lines 55-69: admit the arrivals and the preempted process, then
     * poll the head of the resulting queue (null when it is empty).
     */
    method AdmitThenPoll(pending: seq<Process>, p: Process?, ct: int, ghost done: seq<Process>,
                         ghost init: map<Process, int>, ghost rem: map<Process, int>)
      returns (pending': seq<Process>, d: Process?)
      requires Inv(pending, p, ct, done, init, rem)
      modifies this`schedulingQueue
      ensures pending' == NotArrived(pending, ct)
      ensures old(QueueBeforePoll(pending, p, ct)) == [] ==>
                && d == null && schedulingQueue == [] && pending' == pending
                && Inv(pending', null, ct, done, init, rem)
      ensures old(QueueBeforePoll(pending, p, ct)) != [] ==>
                && d == old(QueueBeforePoll(pending, p, ct))[0]
                && schedulingQueue == old(QueueBeforePoll(pending, p, ct))[1..]
                && d.remainingBurstTime == old(HeadBurst(pending, p, ct))
                && Core(pending', d, ct, done, init, rem)
      ensures Measure(pending', schedulingQueue, d, rem) == Measure(pending, old(schedulingQueue), p, rem)
    {
      pending' := Admit(pending, p, ct, done, init, rem);
      d := Poll(pending', ct, done, init, rem);
    }

    /**
     * RR.java lines 71-98: with nothing polled the clock ticks once over an
     * idle event; otherwise the polled process `d` runs for one quantum, the
     * slice is recorded, and `d` stays the running process exactly while it
     * has work left.
     */
    method RunOrIdle(d: Process?, pending: seq<Process>, ct: int, ghost done: seq<Process>,
                     ghost init: map<Process, int>, ghost rem: map<Process, int>)
      returns (p': Process?, ct': int, ghost done': seq<Process>, ghost rem': map<Process, int>)
      requires tq >= 1
      requires d == null ==>
                 && Inv(pending, null, ct, done, init, rem) && schedulingQueue == []
                 && pending != [] && forall q :: q in pending ==> q.arrivalTime > ct
      requires d != null ==> Core(pending, d, ct, done, init, rem)
      modifies this`eventList, this`owners, d
      ensures d == null ==>
                && p' == null && ct' == ct + 1 && done' == done && rem' == rem
                && eventList == old(eventList) + [Idle(ct, ct + 1)]
                && Gap(pending, ct') < Gap(pending, ct)
      ensures d != null ==>
                && ct' == ct + Quantum(old(d.remainingBurstTime), tq)
                && d.remainingBurstTime == old(d.remainingBurstTime) - (ct' - ct)
                && eventList == old(eventList) + [Ran(d.processId, ct, ct')]
                && (p' == null <==> d.remainingBurstTime < 1) && (p' != null ==> p' == d)
                && Measure(pending, schedulingQueue, p', rem') < Measure(pending, schedulingQueue, d, rem)
      ensures d != null && d.remainingBurstTime < 1 ==>
                && done' == done + [d]
                && d.completedTime == ct'
                && d.turnaroundTime == d.completedTime - d.arrivalTime
                && d.waitingTime == d.turnaroundTime - d.burstTime
      ensures d != null && d.remainingBurstTime >= 1 ==>
                && done' == done
                && d.completedTime == old(d.completedTime)
                && d.turnaroundTime == old(d.turnaroundTime)
                && d.waitingTime == old(d.waitingTime)
      ensures Inv(pending, p', ct', done', init, rem')
    {
      if d == null {
        // nothing to run: one tick with no process on the CPU
        IdleTickShrinksGap(pending, ct);
        ct' := RecordIdleTick(pending, ct, done, init, rem);
        p', done', rem' := null, done, rem;
      } else {
        ct', rem' := RunQuantum(d, pending, ct, done, init, rem);
        p', done' := CompleteIfDone(d, pending, ct', done, init, rem');
      }
    }

    /**
     * The main loop of the simulation (RR.java lines 52-99), run until nothing is
     * pending, queued or running. Every process ends up finished, having
     * received exactly its initial burst.
     */
    method Simulate(ghost init: map<Process, int>) returns (ct: int)
      requires tq >= 1
      requires Inv(processes, null, 0, [], init, init)
      modifies this`schedulingQueue, this`eventList, this`owners, processes
      ensures schedulingQueue == []
      ensures Timeline(ct)
      ensures forall q :: q in processes ==> q in init && RunTime(eventList, owners, q) == init[q]
      ensures forall q :: q in processes ==> Finished(q, eventList, owners)
    {
      // the processes not yet admitted, in arrival order
      var pending := processes;
      var p: Process? := null;
      ct := 0;
      ghost var done: seq<Process> := [];
      ghost var rem := init;

      while pending != [] || schedulingQueue != [] || p != null
        invariant Inv(pending, p, ct, done, init, rem)
        decreases Measure(pending, schedulingQueue, p, rem), Gap(pending, ct)
      {
        ghost var polled, burst;
        pending, p, ct, done, rem, polled, burst := Step(pending, p, ct, done, init, rem);
      }
      NothingLeft(done, processes);
      forall q | q in processes
        ensures q in init && RunTime(eventList, owners, q) == init[q]
      {
        assert q in done;
        assert Finished(q, eventList, owners);
      }
    }

    /**
     * The simulation (RR.java lines 43-99): sort the processes by arrival time, then
     * run the main loop.
     */
    method Run()
      requires tq >= 1
      requires schedulingQueue == [] && eventList == []
      requires Distinct(processes)
      modifies this, processes
      ensures SortedByArrival(processes)
      ensures multiset(processes) == old(multiset(processes))
      ensures forall a :: WithArrival(processes, a) == WithArrival(old(processes), a)
      ensures schedulingQueue == []
      ensures |owners| == |eventList|
      ensures eventList != [] ==> eventList[0].start == 0
      ensures forall i :: 0 < i < |eventList| ==> eventList[i].start == eventList[i - 1].end
      ensures forall i :: 0 <= i < |eventList| ==> Agrees(eventList[i], owners[i], tq)
      ensures forall i :: 0 <= i < |owners| && owners[i] != null ==> owners[i] in processes
      ensures forall q :: q in old(processes) ==> RunTime(eventList, owners, q) == old(q.remainingBurstTime)
      ensures forall q :: q in processes ==> Finished(q, eventList, owners)
      ensures forall q :: q in old(processes) && old(q.remainingBurstTime) == q.burstTime ==>
                q.waitingTime == q.completedTime - q.arrivalTime - RunTime(eventList, owners, q)
    {
      ghost var init := map q | q in processes :: q.remainingBurstTime;
      // a stable sort on arrival time
      processes := SortByArrival(processes);
      InitialPartition(old(processes), processes);
      forall q | q in processes || q in old(processes)
        ensures q in old(processes) && q in processes
      {
        CountIsMultiplicity(processes, q);
        CountIsMultiplicity(old(processes), q);
        CountPositive(processes, q);
        CountPositive(old(processes), q);
      }
      owners := [];
      assert Inv(processes, null, 0, [], init, init);
      assert forall i | 0 <= i < |processes| :: processes[i] in old(processes);
      var ct := Simulate(init);
    }
  }
}
