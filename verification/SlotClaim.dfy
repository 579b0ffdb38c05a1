/** The lock-free slot claim of lib/vi53xx_xdma.c: threads scan a pointer table with
    `__sync_bool_compare_and_swap(list + n, NULL, record)`, one compare-and-swap a step.

    A schedule is any sequence of thread numbers; every theorem is over all schedules,
    any number of threads and any table. */
module SlotClaim {
  import opened Wrappers
  import opened Counting

  /** Whose record a slot points to: one stored before the run, or that of a thread. */
  datatype Owner = Earlier(id: nat) | Claimant(thread: nat)

  datatype Thread = Scanning(next: nat) | Holding(slot: nat) | FellOff

  datatype State = State(slots: seq<Option<Owner>>, threads: seq<Thread>)

  /** One step of thread t: a compare-and-swap on the next slot, or the end of the loop. */
  function Step(s: State, t: nat): State {
    if t >= |s.threads| || !s.threads[t].Scanning? then s
    else
      var n := s.threads[t].next;
      if n >= |s.slots| then s.(threads := s.threads[t := FellOff])
      else if s.slots[n].None? then State(s.slots[n := Some(Claimant(t))], s.threads[t := Holding(n)])
      else s.(threads := s.threads[t := Scanning(n + 1)])
  }

  function Run(s: State, schedule: seq<nat>): State
    decreases |schedule|
  {
    if schedule == [] then s else Run(Step(s, schedule[0]), schedule[1..])
  }

  predicate Initial(s: State) {
    && (forall t | 0 <= t < |s.threads| :: s.threads[t] == Scanning(0))
    && (forall i | 0 <= i < |s.slots| && s.slots[i].Some? :: s.slots[i].value.Earlier?)
  }

  predicate Finished(s: State) {
    forall t | 0 <= t < |s.threads| :: !s.threads[t].Scanning?
  }

  function Free(s: State): set<int> {
    set i: int | 0 <= i < |s.slots| && s.slots[i].None?
  }

  function Holders(s: State): set<int> {
    set t: int | 0 <= t < |s.threads| && s.threads[t].Holding?
  }

  ghost predicate OccupiedBelow(s: State, n: nat)
    requires n <= |s.slots|
  {
    forall i | 0 <= i < n :: s.slots[i].Some?
  }

  /** What every reachable state satisfies, s0 being the state at the start. */
  ghost predicate Inv(s0: State, s: State) {
    && |s.slots| == |s0.slots| && |s.threads| == |s0.threads|
    && (forall i | 0 <= i < |s.slots| && s0.slots[i].Some? :: s.slots[i] == s0.slots[i])
    && (forall i | 0 <= i < |s.slots| && s0.slots[i].None? && s.slots[i].Some? ::
          s.slots[i].value.Claimant? && s.slots[i].value.thread < |s.threads|
          && s.threads[s.slots[i].value.thread] == Holding(i))
    && (forall t | 0 <= t < |s.threads| :: ThreadInv(s0, s, t))
  }

  ghost predicate ThreadInv(s0: State, s: State, t: nat)
    requires |s.slots| == |s0.slots| && t < |s.threads|
  {
    match s.threads[t]
    case Scanning(n) => n <= |s.slots| && OccupiedBelow(s, n)
    case Holding(n) => n < |s.slots| && s0.slots[n].None? && s.slots[n] == Some(Claimant(t)) && OccupiedBelow(s, n)
    case FellOff => OccupiedBelow(s, |s.slots|)
  }

  lemma StepKeepsInv(s0: State, s: State, t: nat)
    requires Inv(s0, s)
    ensures Inv(s0, Step(s, t))
  {
    var after := Step(s, t);
    forall u | 0 <= u < |after.threads|
      ensures ThreadInv(s0, after, u)
    {
      assert ThreadInv(s0, s, u);
    }
  }

  lemma {:induction false} RunKeepsInv(s0: State, s: State, schedule: seq<nat>)
    requires Inv(s0, s)
    ensures Inv(s0, Run(s, schedule))
    decreases |schedule|
  {
    if schedule != [] {
      StepKeepsInv(s0, s, schedule[0]);
      RunKeepsInv(s0, Step(s, schedule[0]), schedule[1..]);
    }
  }

  lemma Reachable(s0: State, schedule: seq<nat>)
    requires Initial(s0)
    ensures Inv(s0, Run(s0, schedule))
  {
    forall t | 0 <= t < |s0.threads|
      ensures ThreadInv(s0, s0, t)
    {
    }
    RunKeepsInv(s0, s0, schedule);
  }

  /** At no point of any run does a step overwrite an occupied slot: what a slot holds after
      part of the schedule it still holds after the rest. */
  lemma {:induction false} NoOverwrite(s: State, schedule: seq<nat>, i: nat)
    requires i < |s.slots| && s.slots[i].Some?
    ensures i < |Run(s, schedule).slots| && Run(s, schedule).slots[i] == s.slots[i]
    decreases |schedule|
  {
    if schedule != [] {
      NoOverwrite(Step(s, schedule[0]), schedule[1..], i);
    }
  }

  /** A thread that succeeded is in exactly one slot, one that was free; no two share a slot;
      a thread that did not succeed is in none. */
  lemma OneSlotEach(s0: State, schedule: seq<nat>, t: nat, i: nat)
    requires Initial(s0) && t < |s0.threads| && i < |s0.slots|
    ensures var s := Run(s0, schedule);
            && |s.threads| == |s0.threads| && |s.slots| == |s0.slots|
            && (s.threads[t] == Holding(i) <==> s.slots[i] == Some(Claimant(t)))
            && (s.threads[t] == Holding(i) ==> s0.slots[i].None?)
  {
    var s := Run(s0, schedule);
    Reachable(s0, schedule);
    assert ThreadInv(s0, s, t);
  }

  /** Slots fill from the bottom: no slot is taken above one that is still free. */
  lemma FilledInOrder(s0: State, schedule: seq<nat>, i: nat, j: nat)
    requires Initial(s0) && j < i < |s0.slots| && s0.slots[i].None?
    ensures var s := Run(s0, schedule);
            |s.slots| == |s0.slots| && (s.slots[i].Some? ==> s.slots[j].Some?)
  {
    var s := Run(s0, schedule);
    Reachable(s0, schedule);
    if s.slots[i].Some? {
      assert ThreadInv(s0, s, s.slots[i].value.thread);
    }
  }

  /** Conservation: every claim consumes one free slot. */
  lemma ClaimsConserveSlots(s0: State, s: State)
    requires Inv(s0, s)
    ensures |Holders(s)| + |Free(s)| == |Free(s0)|
  {
    var claimed := map t | t in Holders(s) :: s.threads[t].slot;
    assert forall t | t in claimed :: ThreadInv(s0, s, t);
    InjectiveSize(claimed);
    assert claimed.Keys == Holders(s) && |claimed| == |claimed.Keys|;
    assert claimed.Values == Free(s0) - Free(s) by {
      forall i | i in Free(s0) - Free(s)
        ensures i in claimed.Values
      {
        assert claimed[s.slots[i].value.thread] == i;
      }
    }
    assert Free(s) <= Free(s0);
    assert |Free(s0) - Free(s)| == |Free(s0)| - |Free(s)|;
  }

  lemma HoldersBound(s: State)
    ensures |Holders(s)| <= |s.threads|
    ensures |Holders(s)| == |s.threads| <==> (forall t | 0 <= t < |s.threads| :: s.threads[t].Holding?)
  {
    BelowSize(|s.threads|);
    SubsetSize(Holders(s), Below(|s.threads|));
    if |Holders(s)| == |s.threads| {
      forall t | 0 <= t < |s.threads|
        ensures s.threads[t].Holding?
      {
        assert t in Below(|s.threads|);
      }
    }
    if forall t | 0 <= t < |s.threads| :: s.threads[t].Holding? {
      assert Holders(s) == Below(|s.threads|);
    }
  }

  /** A thread falls off the end of the table only when there are fewer free slots than threads. */
  lemma NobodyFallsOff(s0: State, schedule: seq<nat>)
    requires Initial(s0) && |s0.threads| <= |Free(s0)|
    ensures FellOff !in Run(s0, schedule).threads
  {
    var s := Run(s0, schedule);
    Reachable(s0, schedule);
    if FellOff in s.threads {
      var t :| 0 <= t < |s.threads| && s.threads[t] == FellOff;
      assert ThreadInv(s0, s, t);
      assert Free(s) == {};
      ClaimsConserveSlots(s0, s);
      HoldersBound(s);
      assert false;
    }
  }

  /** Exactly how many win: as many threads as there were free slots, or all of them. */
  lemma Winners(s0: State, schedule: seq<nat>)
    requires Initial(s0) && Finished(Run(s0, schedule))
    ensures |Holders(Run(s0, schedule))| ==
            if |s0.threads| <= |Free(s0)| then |s0.threads| else |Free(s0)|
  {
    var s := Run(s0, schedule);
    Reachable(s0, schedule);
    ClaimsConserveSlots(s0, s);
    HoldersBound(s);
    if exists t :: 0 <= t < |s.threads| && s.threads[t] == FellOff {
      var t :| 0 <= t < |s.threads| && s.threads[t] == FellOff;
      assert ThreadInv(s0, s, t);
      assert Free(s) == {};
    }
  }

  /** How often the schedule runs thread t. */
  function Turns(schedule: seq<nat>, t: nat): nat {
    if schedule == [] then 0 else (if schedule[0] == t then 1 else 0) + Turns(schedule[1..], t)
  }

  /** Wait-freedom: whatever the others do, |slots| + 1 turns of its own end a thread's scan. */
  lemma {:induction false} EveryScanEnds(s: State, schedule: seq<nat>, t: nat)
    requires t < |s.threads|
    requires s.threads[t].Scanning? ==>
          s.threads[t].next <= |s.slots| && Turns(schedule, t) > |s.slots| - s.threads[t].next
    ensures t < |Run(s, schedule).threads| && !Run(s, schedule).threads[t].Scanning?
    decreases |schedule|
  {
    if schedule != [] {
      EveryScanEnds(Step(s, schedule[0]), schedule[1..], t);
    }
  }

  /** Alone, a thread takes the first free slot: the sequential scan. */
  lemma SoloScan(s0: State, schedule: seq<nat>)
    requires Initial(s0) && |s0.threads| == 1 && Finished(Run(s0, schedule))
    ensures Run(s0, schedule).threads ==
            [if FirstFree(s0.slots) < |s0.slots| then Holding(FirstFree(s0.slots)) else FellOff]
  {
    var s := Run(s0, schedule);
    Reachable(s0, schedule);
    assert ThreadInv(s0, s, 0) && !s.threads[0].Scanning?;
  }
}
