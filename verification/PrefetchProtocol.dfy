/**
 Pins against prefetches (`src/gateway/node.rs`, `src/gateway/client_blocks.rs`): a generation counter
 bumped by every pin, and one slot, under a lock, for the client-block range fetched ahead.

 Every step is atomic and any number of threads interleave. The counter is not read under the slot's
 lock together with the slot: a pin bumps it first and clears the slot later, a starter reads it,
 fetches, and re-reads it once it holds the lock, before it installs. Real and lazy pins take the same
 two steps.
 */
module PrefetchProtocol {
  import opened Primitives

  const PREFETCH_MAX_AGE: Time := 20_000

  type Tid = nat

  // `started` is the number of the step in which the fetch's generation was read.
  datatype Prefetch = Prefetch(id: nat, start: u32, end: u32, generation: nat, at: Time, started: nat) {
    predicate Serves(start: u32, end: u32, generation: nat, now: Time) {
      this.start == start && this.end == end && this.generation == generation
      && Elapsed(now, at) <= PREFETCH_MAX_AGE
    }
  }

  datatype Thread =
    | Pinning(epoch: nat)                            // bumped the generation, not yet cleared the slot
    | Starting(p: Prefetch)                          // fetching
    | Locking(p: Prefetch)                           // holds the slot's lock
    | Installing(p: Prefetch)                        // holds it, and found its generation current
    | Taking(p: Prefetch, began: nat)                // took it out of the slot
    | Awaiting(p: Prefetch, began: nat)              // it serves the request; waiting for the batch

  // A batch handed to the node: its prefetch, and the steps its take began and ended in.
  datatype Batch = Batch(p: Prefetch, began: nat, served: nat)

  datatype Step =
    | PinBump(t: Tid)
    | PinClear(t: Tid)
    | Start(t: Tid, id: nat, start: u32, end: u32, at: Time)
    | Lock(t: Tid)
    | Recheck(t: Tid)
    | Install(t: Tid)
    | Take(t: Tid)
    | Check(t: Tid, start: u32, end: u32, now: Time)
    | Serve(t: Tid)
    | GiveUp(t: Tid)
    | Expire(id: nat)

  datatype State = State(
    epoch: nat,
    slot: Option<Prefetch>,
    holder: Option<Tid>,
    threads: map<Tid, Thread>,
    clock: nat,            // steps so far
    bumps: seq<nat>,       // the step of each bump: the pin of epoch e bumped in step bumps[e - 1]
    pinners: seq<Tid>,     // and its thread
    cleared: set<nat>,     // epochs of the pins that have cleared the slot
    batches: seq<Batch>)
  {
    function Tick(): State {
      this.(clock := clock + 1)
    }

    function Go(t: Tid, th: Thread): State {
      this.(threads := threads[t := th])
    }

    function End(t: Tid): State {
      this.(threads := threads - {t})
    }

    predicate Enabled(step: Step) {
      match step
      case PinBump(t) => t !in threads
      case PinClear(t) => t in threads && threads[t].Pinning? && holder.None?
      case Start(t, _, _, _, _) => t !in threads
      case Lock(t) => t in threads && threads[t].Starting? && holder.None?
      case Recheck(t) => t in threads && threads[t].Locking?
      case Install(t) => t in threads && threads[t].Installing?
      case Take(t) => t !in threads && holder.None?
      case Check(t, _, _, _) => t in threads && threads[t].Taking?
      case Serve(t) => t in threads && threads[t].Awaiting?
      case GiveUp(t) => t in threads && threads[t].Awaiting?
      case Expire(_) => holder.None?
    }

    function Apply(step: Step): State
      requires Enabled(step)
    {
      match step
      case PinBump(t) =>
        this.(epoch := epoch + 1, bumps := bumps + [clock], pinners := pinners + [t]).Go(t, Pinning(epoch + 1))
      case PinClear(t) => this.(slot := None, cleared := cleared + {threads[t].epoch}).End(t)
      case Start(t, id, start, end, at) => Go(t, Starting(Prefetch(id, start, end, epoch, at, clock)))
      case Lock(t) => this.(holder := Some(t)).Go(t, Locking(threads[t].p))
      case Recheck(t) =>
        if epoch != threads[t].p.generation then this.(holder := None).End(t)
        else Go(t, Installing(threads[t].p))
      case Install(t) => this.(slot := Some(threads[t].p), holder := None).End(t)
      case Take(t) => if slot.None? then this else this.(slot := None).Go(t, Taking(slot.value, clock))
      case Check(t, start, end, now) =>
        if threads[t].p.Serves(start, end, epoch, now) then Go(t, Awaiting(threads[t].p, threads[t].began))
        else End(t)
      case Serve(t) =>
        if epoch != threads[t].p.generation then End(t)
        else this.(batches := batches + [Batch(threads[t].p, threads[t].began, clock)]).End(t)
      case GiveUp(t) => End(t)
      case Expire(id) => if slot.Some? && slot.value.id == id then this.(slot := None) else this
    }

    function Next(step: Step): State
      requires Enabled(step)
    {
      Apply(step).Tick()
    }

    // ---- the invariant ----

    // The bumps happened one after another, and `epoch` counts them.
    ghost predicate Counted() {
      epoch == |bumps| == |pinners| && forall k | 0 <= k < |bumps| :: bumps[k] < clock
    }

    // A prefetch's generation splits the bumps into those before its start and those after.
    ghost predicate Stamped(p: Prefetch) {
      && p.generation <= |bumps| && p.started < clock
      && (forall k | 0 <= k < p.generation :: bumps[k] < p.started)
      && (forall k | p.generation <= k < |bumps| :: bumps[k] > p.started)
    }

    // No pin that has cleared the slot is newer than the prefetch.
    ghost predicate Outlives(p: Prefetch) {
      forall e | e in cleared :: e <= p.generation
    }

    ghost predicate ThreadOk(t: Tid, th: Thread) {
      match th
      case Pinning(e) => 0 < e <= epoch && holder != Some(t)
      case Starting(p) => Stamped(p) && holder != Some(t)
      case Locking(p) => Stamped(p) && holder == Some(t)
      case Installing(p) => Stamped(p) && Outlives(p) && holder == Some(t)
      case Taking(p, began) => Stamped(p) && began < clock && holder != Some(t)
      case Awaiting(p, began) => Stamped(p) && began < clock && holder != Some(t)
    }

    // Every pin has cleared the slot or is about to.
    ghost predicate PinsAccounted() {
      && (forall k | 0 <= k < |pinners| ::
            k + 1 in cleared || (pinners[k] in threads && threads[pinners[k]] == Pinning(k + 1)))
      && (forall e | e in cleared :: e <= epoch)
    }

    ghost predicate BatchOk(b: Batch) {
      && b.began < b.served < clock
      && forall k | 0 <= k < |bumps| && bumps[k] < b.served :: bumps[k] < b.p.started
    }

    ghost predicate ThreadsOk() {
      && (forall t | t in threads :: ThreadOk(t, threads[t]))
      && (holder.Some? ==> holder.value in threads)
    }

    ghost predicate SlotOk() {
      slot.Some? ==> Stamped(slot.value) && Outlives(slot.value)
    }

    ghost predicate BatchesOk() {
      forall i | 0 <= i < |batches| :: BatchOk(batches[i])
    }

    ghost predicate Inv() {
      Counted() && ThreadsOk() && SlotOk() && PinsAccounted() && BatchesOk()
    }

    // No pin is between its bump and its clear.
    ghost predicate Quiet() {
      forall t | t in threads :: !threads[t].Pinning?
    }
  }

  const Idle: State := State(0, None, None, map[], 0, [], [], {}, [])

  // The thread a step belongs to, if any.
  function Actor(step: Step): Option<Tid> {
    if step.Expire? then None else Some(step.t)
  }

  lemma StampedLater(s: State, step: Step, p: Prefetch)
    requires s.Counted() && s.Enabled(step) && s.Stamped(p)
    ensures s.Next(step).Stamped(p)
  {
  }

  // A step of another thread leaves this one in order: no pin clears the slot while it is installing.
  lemma OtherThreadKept(s: State, step: Step, t: Tid)
    requires s.Counted() && s.ThreadsOk() && s.Enabled(step)
    requires t in s.threads && Actor(step) != Some(t)
    ensures t in s.Next(step).threads && s.Next(step).threads[t] == s.threads[t]
    ensures s.Next(step).ThreadOk(t, s.threads[t])
  {
    assert s.ThreadOk(t, s.threads[t]);
    if !s.threads[t].Pinning? {
      StampedLater(s, step, s.threads[t].p);
    }
  }

  lemma OwnThreadKept(s: State, step: Step, t: Tid)
    requires s.Counted() && s.ThreadsOk() && s.SlotOk() && s.PinsAccounted() && s.Enabled(step)
    requires Actor(step) == Some(t) && t in s.Next(step).threads
    ensures s.Next(step).ThreadOk(t, s.Next(step).threads[t])
  {
    if t in s.threads {
      assert s.ThreadOk(t, s.threads[t]);
      if !s.threads[t].Pinning? {
        StampedLater(s, step, s.threads[t].p);
      }
    } else if s.slot.Some? {
      StampedLater(s, step, s.slot.value);
    }
  }

  lemma StepKeepsThreads(s: State, step: Step)
    requires s.Counted() && s.ThreadsOk() && s.SlotOk() && s.PinsAccounted() && s.Enabled(step)
    ensures s.Next(step).ThreadsOk()
  {
    var s' := s.Next(step);
    forall t | t in s'.threads ensures s'.ThreadOk(t, s'.threads[t]) {
      if Actor(step) == Some(t) {
        OwnThreadKept(s, step, t);
      } else {
        OtherThreadKept(s, step, t);
      }
    }
  }

  lemma StepKeepsSlot(s: State, step: Step)
    requires s.Counted() && s.ThreadsOk() && s.SlotOk() && s.Enabled(step)
    ensures s.Next(step).SlotOk()
  {
  }

  lemma StepKeepsCount(s: State, step: Step)
    requires s.Counted() && s.Enabled(step)
    ensures s.Next(step).Counted()
  {
  }

  lemma StepKeepsPins(s: State, step: Step)
    requires s.Counted() && s.ThreadsOk() && s.PinsAccounted() && s.Enabled(step)
    ensures s.Next(step).PinsAccounted()
  {
  }

  // A batch is served only if no pin bumped the generation since its fetch read it.
  lemma StepKeepsBatches(s: State, step: Step)
    requires s.Counted() && s.ThreadsOk() && s.BatchesOk() && s.Enabled(step)
    ensures s.Next(step).BatchesOk()
  {
    var s' := s.Next(step);
    forall i | 0 <= i < |s'.batches| ensures s'.BatchOk(s'.batches[i]) {
      if i < |s.batches| {
        assert s.BatchOk(s.batches[i]);
      }
    }
  }

  lemma StepKeepsInv(s: State, step: Step)
    requires s.Inv() && s.Enabled(step)
    ensures s.Next(step).Inv()
  {
    StepKeepsThreads(s, step);
    StepKeepsSlot(s, step);
    StepKeepsCount(s, step);
    StepKeepsPins(s, step);
    StepKeepsBatches(s, step);
  }

  // ---- runs ----

  ghost predicate CanRun(s: State, steps: seq<Step>)
    decreases |steps|
  {
    steps == [] || (s.Enabled(steps[0]) && CanRun(s.Next(steps[0]), steps[1..]))
  }

  function After(s: State, steps: seq<Step>): State
    requires CanRun(s, steps)
    decreases |steps|
  {
    if steps == [] then s else After(s.Next(steps[0]), steps[1..])
  }

  lemma {:induction false} RunKeepsInv(s: State, steps: seq<Step>)
    requires s.Inv() && CanRun(s, steps)
    ensures After(s, steps).Inv()
    decreases |steps|
  {
    if steps != [] {
      StepKeepsInv(s, steps[0]);
      RunKeepsInv(s.Next(steps[0]), steps[1..]);
    }
  }

  // In every interleaving, whenever no pin is between its bump and its clear, the slot is empty or
  // holds a prefetch of the current generation.
  lemma {:induction false} QuietSlotIsCurrent(steps: seq<Step>)
    requires CanRun(Idle, steps)
    ensures var s := After(Idle, steps);
            s.Quiet() ==> s.slot.None? || s.slot.value.generation == s.epoch
  {
    RunKeepsInv(Idle, steps);
    var s := After(Idle, steps);
    if s.Quiet() && s.slot.Some? && s.epoch > 0 {
      assert s.pinners[s.epoch - 1] !in s.threads || s.threads[s.pinners[s.epoch - 1]] != Pinning(s.epoch);
      assert s.epoch in s.cleared;
    }
  }

  // A pin that has cleared the slot has seen the last of every older prefetch there.
  lemma {:induction false} ClearedPinIsFinal(steps: seq<Step>, e: nat)
    requires CanRun(Idle, steps) && e in After(Idle, steps).cleared
    ensures var s := After(Idle, steps);
            && (s.slot.Some? ==> s.slot.value.generation >= e)
            && forall t | t in s.threads && s.threads[t].Installing? :: s.threads[t].p.generation >= e
  {
    RunKeepsInv(Idle, steps);
    var s := After(Idle, steps);
    forall t | t in s.threads && s.threads[t].Installing? ensures s.threads[t].p.generation >= e {
      assert s.ThreadOk(t, s.threads[t]);
    }
  }

  // No batch reaches the node across a pin: every pin that bumped before the batch was served, even
  // while it was being waited for, bumped before its fetch started.
  lemma {:induction false} NoBatchAcrossPin(steps: seq<Step>, i: nat, k: nat)
    requires CanRun(Idle, steps) && i < |After(Idle, steps).batches| && k < |After(Idle, steps).bumps|
    requires After(Idle, steps).bumps[k] < After(Idle, steps).batches[i].served
    ensures After(Idle, steps).bumps[k] < After(Idle, steps).batches[i].p.started
  {
    RunKeepsInv(Idle, steps);
    var s := After(Idle, steps);
    assert s.BatchOk(s.batches[i]);
  }
}
