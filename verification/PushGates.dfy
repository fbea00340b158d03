/**
 The gates every frame of the active peer passes on its way to the node (`src/push/live.rs`): frames
 read while the peer was being selected, through `process_live_frame`, and the live stream, through
 `pump_merge`. The network tip and the node's floor are fixed here, and the timed guards are left out.
 */
module PushGates {
  import opened Primitives
  import opened Rounds
  import opened ForwardGate
  import BlockRound

  const MAX_LIVE_FRAME: nat := 8_000_000

  type Frame = seq<byte>

  datatype Refusal = Short | Missized | Oversized | Implausible(round: u32) | Jump(round: u32) | Lagged(round: u32)

  datatype DropReason = Floor | Duplicate

  function BeU32(b: seq<byte>): nat
    requires |b| >= 4
  {
    var b0: int, b1: int, b2: int, b3: int := b[0], b[1], b[2], b[3];
    0x100_0000 * b0 + 0x1_0000 * b1 + 0x100 * b2 + b3
  }

  // A frame whose length prefix is right and within the live limit.
  predicate WellFormed(f: Frame) {
    |f| >= 5 && BeU32(f) == |f| - 5 <= MAX_LIVE_FRAME
  }

  predicate AllWellFormed(fs: seq<Frame>) {
    forall i | 0 <= i < |fs| :: WellFormed(fs[i])
  }

  // Frames read from a stream have their 5-byte header.
  predicate HaveHeader(fs: seq<Frame>) {
    forall i | 0 <= i < |fs| :: |fs[i]| >= 5
  }

  // The round of a block frame; None for control frames and data without a round.
  function BlockRoundOf(f: Frame): Option<u32> {
    if |f| < 5 || f[4] != 1 then None else BlockRound.RoundOf(BlockRound.RoundParent(f[5..]))
  }

  // What a session has seen and sent: the highest round of the active's stream, the last forwarded
  // round, the frames queued for the node, and those dropped.
  datatype Push = Push(activeRound: u32, lastForwarded: u32, queue: seq<Frame>, dropped: seq<(Frame, DropReason)>) {

    // A frame from selection: the jump check is against the session's highest round.
    function Prefetched(f: Frame, tip: u32, floor: u32): (Push, Option<Refusal>) {
      if |f| < 5 then (this, Some(Short))
      else if BeU32(f) != |f| - 5 then (this, Some(Missized))
      else if BlockRoundOf(f).None? then (this.(queue := queue + [f]), None)
      else
        var round := BlockRoundOf(f).value;
        if !IsPlausible(round, tip) then (this, Some(Implausible(round)))
        else if activeRound != 0 && round > SatAdd(activeRound, MAX_ACTIVE_ROUND_JUMP) then (this, Some(Jump(round)))
        else
          var seen := this.(activeRound := if round > activeRound then round else activeRound);
          if LagFromTip(round, tip, ACTIVE_ROUND_MAX_LAG).Some? then (seen, Some(Lagged(round)))
          else if round <= floor then (seen.(dropped := dropped + [(f, Floor)]), None)
          else if round <= lastForwarded then (seen.(dropped := dropped + [(f, Duplicate)]), None)
          else (seen.(lastForwarded := round, queue := queue + [f]), None)
    }

    // A frame of the live stream: the jump check is against the stream's own progress.
    function Live(progress: Progress, f: Frame, tip: u32, floor: u32, now: Time): (Push, Progress, Option<Refusal>)
      requires |f| >= 5
    {
      if |f| - 5 > MAX_LIVE_FRAME then (this, progress, Some(Oversized))
      else if BlockRoundOf(f).None? then (this.(queue := queue + [f]), progress, None)
      else
        var round := BlockRoundOf(f).value;
        if !IsPlausible(round, tip) then (this, progress, Some(Implausible(round)))
        else if progress.Jumps(round) then (this, progress, Some(Jump(round)))
        else
          var p := progress.Reached(round, now);
          var s := if round > activeRound then this.(activeRound := round) else this;
          if LagFromTip(round, tip, ACTIVE_ROUND_MAX_LAG).Some? then (s, p, Some(Lagged(round)))
          else if round <= floor then (s.(dropped := s.dropped + [(f, Floor)]), p, None)
          else if round > s.lastForwarded then (s.(lastForwarded := round, queue := s.queue + [f]), p, None)
          else (s.(dropped := s.dropped + [(f, Duplicate)]), p, None)
    }
  }

  // ---- whole lists of frames; a refusal ends the session ----

  function RunPrefetched(s: Push, fs: seq<Frame>, tip: u32, floor: u32): (Push, Option<Refusal>)
    decreases |fs|
  {
    if fs == [] then (s, None)
    else
      var (s', refusal) := s.Prefetched(fs[0], tip, floor);
      if refusal.Some? then (s', refusal) else RunPrefetched(s', fs[1..], tip, floor)
  }

  function RunLive(s: Push, progress: Progress, fs: seq<Frame>, tip: u32, floor: u32, now: Time)
    : (Push, Option<Refusal>)
    requires HaveHeader(fs)
    decreases |fs|
  {
    if fs == [] then (s, None)
    else
      var (s', progress', refusal) := s.Live(progress, fs[0], tip, floor, now);
      if refusal.Some? then (s', refusal) else RunLive(s', progress', fs[1..], tip, floor, now)
  }

  // A session: the prefetched frames, then the live stream with its progress starting where they got.
  function RunSession(s: Push, prefetched: seq<Frame>, live: seq<Frame>, tip: u32, floor: u32, now: Time)
    : (Push, Option<Refusal>)
    requires HaveHeader(live)
  {
    var (s', refusal) := RunPrefetched(s, prefetched, tip, floor);
    if refusal.Some? then (s', refusal)
    else RunLive(s', NewProgress(s'.activeRound, now), live, tip, floor, now)
  }

  // The two paths are written out separately, as in the source. On a well-formed frame they agree, as
  // long as the stream's progress is the session's.
  lemma {:induction false} PathsAgree(s: Push, progress: Progress, f: Frame, tip: u32, floor: u32, now: Time)
    requires WellFormed(f) && progress.lastRound == s.activeRound
    ensures var (s', progress', refusal) := s.Live(progress, f, tip, floor, now);
            s.Prefetched(f, tip, floor) == (s', refusal) && (refusal.None? ==> progress'.lastRound == s'.activeRound)
  {
  }

  lemma {:induction false} LiveIgnoresClock(s: Push, p: Progress, p': Progress, fs: seq<Frame>,
                                            tip: u32, floor: u32, now: Time)
    requires AllWellFormed(fs) && p.lastRound == s.activeRound == p'.lastRound
    ensures RunLive(s, p, fs, tip, floor, now) == RunLive(s, p', fs, tip, floor, now)
    decreases |fs|
  {
    if fs != [] {
      PathsAgree(s, p, fs[0], tip, floor, now);
      PathsAgree(s, p', fs[0], tip, floor, now);
      var (s', q, refusal) := s.Live(p, fs[0], tip, floor, now);
      var (_, q', _) := s.Live(p', fs[0], tip, floor, now);
      if refusal.None? {
        LiveIgnoresClock(s', q, q', fs[1..], tip, floor, now);
      }
    }
  }

  // Where a well-formed list of frames is split between selection and the live stream makes no
  // difference: the same frames forwarded, the same dropped, the same refusal.
  lemma {:induction false} SplitAnywhere(s: Push, xs: seq<Frame>, ys: seq<Frame>, tip: u32, floor: u32, now: Time)
    requires AllWellFormed(xs) && AllWellFormed(ys)
    ensures RunSession(s, xs, ys, tip, floor, now) == RunSession(s, [], xs + ys, tip, floor, now)
    decreases |xs|
  {
    if xs == [] {
      assert [] + ys == ys;
    } else {
      var f := xs[0];
      var p := NewProgress(s.activeRound, now);
      PathsAgree(s, p, f, tip, floor, now);
      var (s', p', refusal) := s.Live(p, f, tip, floor, now);
      assert (xs + ys)[0] == f && (xs + ys)[1..] == xs[1..] + ys;
      if refusal.None? {
        SplitAnywhere(s', xs[1..], ys, tip, floor, now);
        LiveIgnoresClock(s', p', NewProgress(s'.activeRound, now), xs[1..] + ys, tip, floor, now);
      }
    }
  }

  // ---- what is forwarded ----

  // The rounds of the block frames among `fs`.
  function BlockRounds(fs: seq<Frame>): seq<u32> {
    if fs == [] then []
    else
      BlockRounds(fs[..|fs| - 1])
      + (if BlockRoundOf(fs[|fs| - 1]).Some? then [BlockRoundOf(fs[|fs| - 1]).value] else [])
  }

  // Forwarded block rounds climb strictly above where the session started, up to the last one.
  ghost predicate Climbing(base: u32, s: Push) {
    && StrictlyIncreasing([base] + BlockRounds(s.queue))
    && s.lastForwarded == ([base] + BlockRounds(s.queue))[|BlockRounds(s.queue)|]
  }

  lemma ClimbsOneMore(base: u32, rounds: seq<u32>, r: u32)
    requires StrictlyIncreasing([base] + rounds) && r > ([base] + rounds)[|rounds|]
    ensures StrictlyIncreasing([base] + (rounds + [r]))
  {
    assert [base] + (rounds + [r]) == ([base] + rounds) + [r];
  }

  lemma {:induction false} BlockRoundsOneMore(fs: seq<Frame>, f: Frame, round: Option<u32>)
    requires round == BlockRoundOf(f)
    ensures BlockRounds(fs + [f]) == BlockRounds(fs) + (if round.Some? then [round.value] else [])
  {
    assert (fs + [f])[..|fs|] == fs;
  }

  // What either path does to the queue with one frame: nothing, or append it, a block only above the
  // last one forwarded.
  predicate Queues(s: Push, s': Push, f: Frame, round: Option<u32>) {
    || (s'.queue == s.queue && s'.lastForwarded == s.lastForwarded)
    || (&& s'.queue == s.queue + [f]
        && if round.None? then s'.lastForwarded == s.lastForwarded
           else s'.lastForwarded == round.value > s.lastForwarded)
  }

  lemma PrefetchedQueues(s: Push, f: Frame, tip: u32, floor: u32)
    ensures Queues(s, s.Prefetched(f, tip, floor).0, f, BlockRoundOf(f))
  {
  }

  lemma {:induction false} LiveQueues(s: Push, p: Progress, f: Frame, tip: u32, floor: u32, now: Time)
    requires |f| >= 5
    ensures Queues(s, s.Live(p, f, tip, floor, now).0, f, BlockRoundOf(f))
  {
  }

  lemma QueuesKeepsClimbing(base: u32, s: Push, s': Push, f: Frame, round: Option<u32>)
    requires Climbing(base, s) && round == BlockRoundOf(f) && Queues(s, s', f, round)
    ensures Climbing(base, s')
  {
    if s'.queue != s.queue {
      BlockRoundsOneMore(s.queue, f, round);
      if round.Some? {
        ClimbsOneMore(base, BlockRounds(s.queue), round.value);
      } else {
        assert BlockRounds(s.queue) + [] == BlockRounds(s.queue);
      }
    }
  }

  lemma {:induction false} PrefetchedClimbs(base: u32, s: Push, fs: seq<Frame>, tip: u32, floor: u32)
    requires Climbing(base, s)
    ensures Climbing(base, RunPrefetched(s, fs, tip, floor).0)
    decreases |fs|
  {
    if fs != [] {
      PrefetchedQueues(s, fs[0], tip, floor);
      QueuesKeepsClimbing(base, s, s.Prefetched(fs[0], tip, floor).0, fs[0], BlockRoundOf(fs[0]));
      if s.Prefetched(fs[0], tip, floor).1.None? {
        PrefetchedClimbs(base, s.Prefetched(fs[0], tip, floor).0, fs[1..], tip, floor);
      }
    }
  }

  lemma {:induction false} LiveClimbs(base: u32, s: Push, p: Progress, fs: seq<Frame>, tip: u32, floor: u32, now: Time)
    requires Climbing(base, s) && HaveHeader(fs)
    ensures Climbing(base, RunLive(s, p, fs, tip, floor, now).0)
    decreases |fs|
  {
    if fs != [] {
      var (s', p', refusal) := s.Live(p, fs[0], tip, floor, now);
      LiveQueues(s, p, fs[0], tip, floor, now);
      QueuesKeepsClimbing(base, s, s', fs[0], BlockRoundOf(fs[0]));
      if refusal.None? {
        LiveClimbs(base, s', p', fs[1..], tip, floor, now);
      }
    }
  }

  // The rounds of the blocks a session forwards strictly increase.
  lemma {:induction false} SessionClimbs(base: u32, xs: seq<Frame>, ys: seq<Frame>, tip: u32, floor: u32, now: Time)
    requires HaveHeader(ys)
    ensures StrictlyIncreasing([base] + BlockRounds(RunSession(Push(base, base, [], []), xs, ys, tip, floor, now).0.queue))
  {
    var s := Push(base, base, [], []);
    assert [base] + BlockRounds([]) == [base];
    PrefetchedClimbs(base, s, xs, tip, floor);
    var (s', refusal) := RunPrefetched(s, xs, tip, floor);
    if refusal.None? {
      LiveClimbs(base, s', NewProgress(s'.activeRound, now), ys, tip, floor, now);
    }
  }

  // ---- the session itself ----

  class PushSession {
    var activeRound: u32
    const gate: RoundForwardGate
    var queue: seq<Frame>
    var dropped: seq<(Frame, DropReason)>

    constructor (lastForwarded: u32)
      ensures Valid() && View() == Push(lastForwarded, lastForwarded, [], [])
      ensures fresh(gate) && fresh(gate.dedup.slots)
    {
      gate := new RoundForwardGate(16_384, lastForwarded);
      activeRound, queue, dropped := lastForwarded, [], [];
    }

    ghost predicate Valid()
      reads this, gate, gate.dedup, gate.dedup.slots
    {
      gate.Valid()
    }

    ghost function View(): Push
      reads this, gate
    {
      Push(activeRound, gate.lastForwarded, queue, dropped)
    }

    // A frame the active sent during selection.
    method ProcessLiveFrame(f: Frame, tip: u32, floor: u32) returns (refusal: Option<Refusal>)
      requires Valid()
      modifies this, gate, gate.dedup.slots
      ensures Valid() && (View(), refusal) == old(View()).Prefetched(f, tip, floor)
    {
      if |f| < 5 {
        return Some(Short);
      }
      if BeU32(f) != |f| - 5 {
        return Some(Missized);
      }
      var round := ReadRound(f);
      if round.None? {
        queue := queue + [f];
        return None;
      }
      if !IsPlausible(round.value, tip) {
        return Some(Implausible(round.value));
      }
      if activeRound != 0 && round.value > SatAdd(activeRound, MAX_ACTIVE_ROUND_JUMP) {
        return Some(Jump(round.value));
      }
      activeRound := if round.value > activeRound then round.value else activeRound;
      if LagFromTip(round.value, tip, ACTIVE_ROUND_MAX_LAG).Some? {
        return Some(Lagged(round.value));
      }
      if round.value <= floor {
        dropped := dropped + [(f, Floor)];
        return None;
      }
      var forward := gate.ShouldForward(round.value, true);
      if !forward {
        dropped := dropped + [(f, Duplicate)];
        return None;
      }
      queue := queue + [f];
      return None;
    }

    // The live stream: every frame until one is refused or the stream ends.
    method PumpMerge(frames: seq<Frame>, tip: u32, floor: u32, now: Time) returns (refusal: Option<Refusal>)
      requires Valid() && HaveHeader(frames)
      modifies this, gate, gate.dedup.slots
      ensures Valid()
      ensures (View(), refusal) == RunLive(old(View()), NewProgress(old(activeRound), now), frames, tip, floor, now)
    {
      var progress := NewProgress(activeRound, now);
      ghost var all := RunLive(View(), progress, frames, tip, floor, now);
      var i := 0;
      assert frames[0..] == frames;
      while i < |frames|
        invariant 0 <= i <= |frames| && Valid()
        invariant RunLive(View(), progress, frames[i..], tip, floor, now) == all
      {
        ghost var before, was := View(), progress;
        assert frames[i..][0] == frames[i] && frames[i..][1..] == frames[i + 1..];
        progress, refusal := LiveFrame(progress, frames[i], tip, floor, now);
        if refusal.Some? {
          return;
        }
        i := i + 1;
      }
      return None;
    }

    method LiveFrame(progress: Progress, f: Frame, tip: u32, floor: u32, now: Time)
      returns (progress': Progress, refusal: Option<Refusal>)
      requires Valid() && |f| >= 5
      modifies this, gate, gate.dedup.slots
      ensures Valid() && (View(), progress', refusal) == old(View()).Live(progress, f, tip, floor, now)
    {
      progress' := progress;
      if |f| - 5 > MAX_LIVE_FRAME {
        return progress', Some(Oversized);
      }
      var round := ReadRound(f);
      if round.None? {
        queue := queue + [f];
        return progress', None;
      }
      if !IsPlausible(round.value, tip) {
        return progress', Some(Implausible(round.value));
      }
      if progress.Jumps(round.value) {
        return progress', Some(Jump(round.value));
      }
      progress' := progress.Reached(round.value, now);
      activeRound := if round.value > activeRound then round.value else activeRound;
      if LagFromTip(round.value, tip, ACTIVE_ROUND_MAX_LAG).Some? {
        return progress', Some(Lagged(round.value));
      }
      if round.value <= floor {
        dropped := dropped + [(f, Floor)];
        return progress', None;
      }
      var forward := gate.ShouldForward(round.value, true);
      if !forward {
        dropped := dropped + [(f, Duplicate)];
        return progress', None;
      }
      queue := queue + [f];
      return progress', None;
    }
  }

  method ReadRound(f: Frame) returns (round: Option<u32>)
    requires |f| >= 5
    ensures round == BlockRoundOf(f)
  {
    if f[4] != 1 {
      return None;
    }
    round := BlockRound.BlockRound(f[5..]);
  }
}
