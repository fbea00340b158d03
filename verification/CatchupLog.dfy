/**
 The bounded log of a node's catch-up batches and the verdict that its catch-up sits still
 (`src/gateway/node.rs`, `mark_client_blocks_response` and `client_blocks_stalled`).

 The log keeps samples of one run of batches, no older than a span and no more than a count. The
 theorem says what the verdict is in terms of the whole history of batches alone: the one the history
 would give, unless the window holds more batches than the log can keep.
 */
module CatchupLog {
  import opened Primitives
  import opened Sorting

  const CATCHUP_RUN_GAP: Time := 60_000
  const CATCHUP_SAMPLE_SPAN: Time := 300_000
  const CATCHUP_MAX_SAMPLES: nat := 1024
  const CATCHUP_PROGRESS_ROUNDS: u32 := 150
  const CATCHUP_CLOSING_ROUNDS: u32 := 50
  const CATCHUP_LOOP_MAX_WIDTH: u32 := 64

  // A batch: when, how far behind it started (None: tip unknown), and how many rounds it asked for.
  datatype Sample = Sample(t: Time, behind: Option<u32>, width: u32)

  datatype Run = Run(since: Time, last: Time, samples: seq<Sample>)

  // ---- marking a batch ----

  // The samples after those past the span are dropped from the front.
  function DropOld(s: seq<Sample>, now: Time): seq<Sample> {
    if s != [] && Elapsed(now, s[0].t) > CATCHUP_SAMPLE_SPAN then DropOld(s[1..], now) else s
  }

  // ...and after those past the count; the log's start of the run moves up to the last of them.
  function DropExcess(s: seq<Sample>, since: Time): (seq<Sample>, Time)
    decreases |s|
  {
    if |s| > CATCHUP_MAX_SAMPLES then DropExcess(s[1..], if s[0].t > since then s[0].t else since) else (s, since)
  }

  function Marked(run: Option<Run>, x: Sample): Run {
    if run.Some? && Elapsed(x.t, run.value.last) < CATCHUP_RUN_GAP then
      var (samples, since) := DropExcess(DropOld(run.value.samples + [x], x.t), run.value.since);
      Run(since, x.t, samples)
    else Run(x.t, x.t, [x])
  }

  class ClientBlockLog {
    var run: Option<Run>

    constructor ()
      ensures run == None
    {
      run := None;
    }

    method MarkResponse(now: Time, behind: Option<u32>, width: u32)
      modifies this
      ensures run == Some(Marked(old(run), Sample(now, behind, width)))
    {
      if run.None? || Elapsed(now, run.value.last) >= CATCHUP_RUN_GAP {
        run := Some(Run(now, now, [Sample(now, behind, width)]));
        return;
      }
      var samples := run.value.samples + [Sample(now, behind, width)];
      ghost var all := samples;
      while samples != [] && Elapsed(now, samples[0].t) > CATCHUP_SAMPLE_SPAN
        invariant DropOld(samples, now) == DropOld(all, now)
        decreases |samples|
      {
        samples := samples[1..];
      }
      var since: Time := run.value.since;
      ghost var young := samples;
      while |samples| > CATCHUP_MAX_SAMPLES
        invariant DropExcess(samples, since) == DropExcess(young, run.value.since)
        decreases |samples|
      {
        since := if samples[0].t > since then samples[0].t else since;
        samples := samples[1..];
      }
      run := Some(Run(since, now, samples));
    }
  }

  // ---- the verdict ----

  function InWindow(s: seq<Sample>, from: Time): seq<Sample> {
    if s == [] then []
    else (if s[0].t > from then [s[0]] else []) + InWindow(s[1..], from)
  }

  predicate AllKnown(s: seq<Sample>) {
    forall i | 0 <= i < |s| :: s[i].behind.Some?
  }

  function Distances(s: seq<Sample>): seq<u32>
    requires AllKnown(s)
  {
    seq(|s|, i requires 0 <= i < |s| => s[i].behind.value)
  }

  function Widths(s: seq<Sample>): seq<u32> {
    seq(|s|, i requires 0 <= i < |s| => s[i].width)
  }

  function Median(s: seq<int>): int {
    SortSorted(s);
    if s == [] then 0 else Sort(s)[|s| / 2]
  }

  function MinOf(s: seq<int>): int
    requires s != []
  {
    if |s| == 1 then s[0] else var m := MinOf(s[1..]); if s[0] <= m then s[0] else m
  }

  function MaxOf(s: seq<int>): int
    requires s != []
  {
    if |s| == 1 then s[0] else var m := MaxOf(s[1..]); if s[0] >= m then s[0] else m
  }

  // The distance shrank from the first third of the window to the last.
  predicate Closing(d: seq<int>) {
    var third := if |d| / 3 >= 1 then |d| / 3 else 1;
    third <= |d| && Median(d[..third]) - Median(d[|d| - third..]) >= CATCHUP_CLOSING_ROUNDS
  }

  // The batches of a window sat still: all known, within the band, not closing in, in small ranges.
  predicate SatStill(s: seq<Sample>) {
    && s != [] && AllKnown(s)
    && MaxOf(Distances(s)) - MinOf(Distances(s)) < CATCHUP_PROGRESS_ROUNDS
    && !Closing(Distances(s))
    && Median(Widths(s)) < CATCHUP_LOOP_MAX_WIDTH
  }

  // None for a node that has been quiet; otherwise the verdict over the window that ends now, and the
  // newest batch's distance.
  function Stalled(run: Option<Run>, now: Time, quiet: nat, window: nat): Option<(bool, Option<u32>)> {
    if run.None? || Elapsed(now, run.value.last) >= quiet then None
    else
      var r := run.value;
      var behind := if r.samples == [] then None else r.samples[|r.samples| - 1].behind;
      if now < window || r.since > now - window then Some((false, behind))
      else Some((SatStill(InWindow(r.samples, now - window)), behind))
  }

  // ---- the log against the whole history ----

  // The log after a history of batches.
  function LogAfter(hist: seq<Sample>): Option<Run> {
    if hist == [] then None else Some(Marked(LogAfter(hist[..|hist| - 1]), hist[|hist| - 1]))
  }

  ghost predicate Ordered(hist: seq<Sample>) {
    forall i, j | 0 <= i < j < |hist| :: hist[i].t <= hist[j].t
  }

  // The log keeps the newest samples, from the `k`th on; each one it no longer has is past the span or
  // no later than the log's own start of the run.
  ghost predicate Keeps(hist: seq<Sample>, r: Run, k: nat) {
    && k < |hist| && r.samples == hist[k..]
    && r.last == hist[|hist| - 1].t && r.since <= r.last
    && forall i | 0 <= i < k :: hist[i].t <= r.since || Elapsed(r.last, hist[i].t) > CATCHUP_SAMPLE_SPAN
  }

  lemma {:induction false} DropOldKeeps(hist: seq<Sample>, k: nat, now: Time) returns (k': nat)
    requires k < |hist| && hist[|hist| - 1].t == now
    ensures k <= k' < |hist| && DropOld(hist[k..], now) == hist[k'..]
    ensures forall i | k <= i < k' :: Elapsed(now, hist[i].t) > CATCHUP_SAMPLE_SPAN
    decreases |hist| - k
  {
    k' := k;
    if Elapsed(now, hist[k].t) > CATCHUP_SAMPLE_SPAN {
      assert hist[k..][1..] == hist[k + 1..];
      k' := DropOldKeeps(hist, k + 1, now);
    }
  }

  lemma {:induction false} DropExcessKeeps(hist: seq<Sample>, k: nat, since: Time) returns (k': nat)
    requires k < |hist| && Ordered(hist) && since <= hist[|hist| - 1].t
    ensures k <= k' < |hist|
    ensures var (samples, since') := DropExcess(hist[k..], since);
            && samples == hist[k'..] && since <= since' <= hist[|hist| - 1].t
            && forall i | k <= i < k' :: hist[i].t <= since'
    decreases |hist| - k
  {
    k' := k;
    if |hist[k..]| > CATCHUP_MAX_SAMPLES {
      assert hist[k..][1..] == hist[k + 1..] && hist[k..][0] == hist[k];
      k' := DropExcessKeeps(hist, k + 1, if hist[k].t > since then hist[k].t else since);
    }
  }

  lemma {:induction false} LogKeeps(hist: seq<Sample>) returns (k: nat)
    requires hist != [] && Ordered(hist)
    ensures Keeps(hist, LogAfter(hist).value, k)
  {
    var n := |hist| - 1;
    var before, x := hist[..n], hist[n];
    k := n;
    if before != [] {
      assert Ordered(before);
      var k0 := LogKeeps(before);
      var r := LogAfter(before).value;
      if Elapsed(x.t, r.last) < CATCHUP_RUN_GAP {
        assert r.samples + [x] == hist[k0..];
        var k1 := DropOldKeeps(hist, k0, x.t);
        k := DropExcessKeeps(hist, k1, r.since);
        KeepsLater(hist, r, k0, k1, k);
      }
    }
  }

  lemma {:induction false} KeepsLater(hist: seq<Sample>, r: Run, k0: nat, k1: nat, k: nat)
    requires |hist| >= 2 && Ordered(hist) && Keeps(hist[..|hist| - 1], r, k0) && k0 <= k1 <= k < |hist|
    requires forall i | k0 <= i < k1 :: Elapsed(hist[|hist| - 1].t, hist[i].t) > CATCHUP_SAMPLE_SPAN
    requires DropExcess(hist[k1..], r.since).0 == hist[k..]
    requires r.since <= DropExcess(hist[k1..], r.since).1 <= hist[|hist| - 1].t
    requires forall i | k1 <= i < k :: hist[i].t <= DropExcess(hist[k1..], r.since).1
    ensures Keeps(hist, Run(DropExcess(hist[k1..], r.since).1, hist[|hist| - 1].t, hist[k..]), k)
  {
    var since, last := DropExcess(hist[k1..], r.since).1, hist[|hist| - 1].t;
    forall i | 0 <= i < k ensures hist[i].t <= since || Elapsed(last, hist[i].t) > CATCHUP_SAMPLE_SPAN {
      if i < k0 {
        assert hist[..|hist| - 1][i] == hist[i];
        assert hist[|hist| - 2].t <= last;
      }
    }
  }

  lemma {:induction false} InWindowSplit(s: seq<Sample>, k: nat, from: Time)
    requires k <= |s| && forall i | 0 <= i < k :: s[i].t <= from
    ensures InWindow(s, from) == InWindow(s[k..], from)
  {
    if k > 0 {
      assert s[1..][k - 1..] == s[k..];
      InWindowSplit(s[1..], k - 1, from);
    }
  }

  // ---- the verdict in terms of the history ----

  // When the current run began: the first batch not preceded by another within the gap.
  function RunStart(hist: seq<Sample>): Time
    requires hist != []
  {
    var n := |hist| - 1;
    if n == 0 || Elapsed(hist[n].t, hist[n - 1].t) >= CATCHUP_RUN_GAP then hist[n].t else RunStart(hist[..n])
  }

  // Some batch at `since` has as many newer ones as the log can keep.
  ghost predicate CappedAt(hist: seq<Sample>, since: Time) {
    exists j :: 0 <= j && j + CATCHUP_MAX_SAMPLES < |hist| && hist[j].t == since
  }

  // The log is within its count, and its run starts where the history's does or where the cap put it.
  ghost predicate Starts(hist: seq<Sample>, r: Run)
    requires hist != []
  {
    && |r.samples| <= CATCHUP_MAX_SAMPLES
    && RunStart(hist) <= r.since
    && (r.since == RunStart(hist) || CappedAt(hist, r.since))
  }

  lemma {:induction false} DropExcessStarts(hist: seq<Sample>, k: nat, since: Time)
    requires k < |hist|
    ensures var (samples, since') := DropExcess(hist[k..], since);
            && |samples| <= CATCHUP_MAX_SAMPLES && since <= since'
            && (since' == since || CappedAt(hist, since'))
    decreases |hist| - k
  {
    if |hist[k..]| > CATCHUP_MAX_SAMPLES {
      assert hist[k..][1..] == hist[k + 1..] && hist[k..][0] == hist[k];
      DropExcessStarts(hist, k + 1, if hist[k].t > since then hist[k].t else since);
      assert CappedAt(hist, hist[k].t);
    }
  }

  lemma CappedLater(hist: seq<Sample>, since: Time)
    requires hist != [] && CappedAt(hist[..|hist| - 1], since)
    ensures CappedAt(hist, since)
  {
    var j :| 0 <= j && j + CATCHUP_MAX_SAMPLES < |hist| - 1 && hist[..|hist| - 1][j].t == since;
    assert hist[j].t == since;
  }

  lemma {:induction false} LogStarts(hist: seq<Sample>)
    requires hist != [] && Ordered(hist)
    ensures Starts(hist, LogAfter(hist).value)
    decreases |hist|
  {
    var n := |hist| - 1;
    if n > 0 && Elapsed(hist[n].t, hist[n - 1].t) < CATCHUP_RUN_GAP {
      assert Ordered(hist[..n]);
      LogStarts(hist[..n]);
      var k := LogContinues(hist);
      StartsLater(hist, LogAfter(hist[..n]).value, k);
    } else {
      LogRestarts(hist);
    }
  }

  lemma {:induction false} LogContinues(hist: seq<Sample>) returns (k: nat)
    requires |hist| >= 2 && Ordered(hist)
    requires Elapsed(hist[|hist| - 1].t, hist[|hist| - 2].t) < CATCHUP_RUN_GAP
    ensures k < |hist|
    ensures var (samples, since) := DropExcess(hist[k..], LogAfter(hist[..|hist| - 1]).value.since);
            LogAfter(hist).value == Run(since, hist[|hist| - 1].t, samples)
  {
    var before, x := hist[..|hist| - 1], hist[|hist| - 1];
    assert Ordered(before);
    var k0 := LogKeeps(before);
    assert LogAfter(before).value.samples + [x] == hist[k0..];
    k := DropOldKeeps(hist, k0, x.t);
  }

  lemma {:induction false} LogRestarts(hist: seq<Sample>)
    requires hist != [] && Ordered(hist)
    requires |hist| >= 2 ==> Elapsed(hist[|hist| - 1].t, hist[|hist| - 2].t) >= CATCHUP_RUN_GAP
    ensures LogAfter(hist).value == Run(hist[|hist| - 1].t, hist[|hist| - 1].t, [hist[|hist| - 1]])
  {
    var before := hist[..|hist| - 1];
    if before != [] {
      assert Ordered(before);
      NewestIsKept(before);
    }
  }

  lemma {:induction false} StartsLater(hist: seq<Sample>, r: Run, k: nat)
    requires |hist| >= 2 && k < |hist| && Starts(hist[..|hist| - 1], r)
    requires Elapsed(hist[|hist| - 1].t, hist[|hist| - 2].t) < CATCHUP_RUN_GAP
    ensures var (samples, since) := DropExcess(hist[k..], r.since);
            Starts(hist, Run(since, hist[|hist| - 1].t, samples))
  {
    var before := hist[..|hist| - 1];
    assert RunStart(hist) == RunStart(before);
    DropExcessStarts(hist, k, r.since);
    if r.since != RunStart(before) {
      CappedLater(hist, r.since);
    }
  }

  // Everything from `j` on is in the window.
  lemma {:induction false} InWindowHas(s: seq<Sample>, j: nat, from: Time)
    requires j <= |s| && forall i | j <= i < |s| :: s[i].t > from
    ensures |InWindow(s, from)| >= |s| - j
  {
    if s != [] {
      InWindowHas(s[1..], if j > 0 then j - 1 else 0, from);
    }
  }

  lemma {:induction false} InWindowSize(s: seq<Sample>, from: Time)
    ensures |InWindow(s, from)| <= |s|
  {
    if s != [] {
      InWindowSize(s[1..], from);
    }
  }

  lemma {:induction false} WindowIsKept(hist: seq<Sample>, from: Time)
    requires hist != [] && Ordered(hist) && hist[|hist| - 1].t <= from + CATCHUP_SAMPLE_SPAN
    requires LogAfter(hist).value.since <= from
    ensures InWindow(LogAfter(hist).value.samples, from) == InWindow(hist, from)
  {
    var k := LogKeeps(hist);
    InWindowSplit(hist, k, from);
  }

  // The run counts as older than the window exactly if it is and the window's batches were all kept.
  lemma {:induction false} SinceIsHistorys(hist: seq<Sample>, from: Time)
    requires hist != [] && Ordered(hist) && hist[|hist| - 1].t <= from + CATCHUP_SAMPLE_SPAN
    ensures LogAfter(hist).value.since <= from
            <==> RunStart(hist) <= from && |InWindow(hist, from)| <= CATCHUP_MAX_SAMPLES
  {
    var r := LogAfter(hist).value;
    LogStarts(hist);
    if r.since <= from {
      WindowIsKept(hist, from);
      InWindowSize(r.samples, from);
    } else if r.since != RunStart(hist) {
      var j :| 0 <= j && j + CATCHUP_MAX_SAMPLES < |hist| && hist[j].t == r.since;
      InWindowHas(hist, j, from);
    }
  }

  // The batches in the window that ends now.
  function Recent(hist: seq<Sample>, now: Time, window: nat): seq<Sample> {
    InWindow(hist, SatSub(now, window))
  }

  predicate RunIsOld(hist: seq<Sample>, now: Time, window: nat)
    requires hist != []
  {
    now >= window && RunStart(hist) <= now - window
  }

  // With non-decreasing times and a window within the span, the verdict read off the log is given by
  // the history alone: the catch-up is still exactly if the run is a window old, the window's batches
  // sat still, and the log could keep them all.
  lemma {:induction false} VerdictIsHistorys(hist: seq<Sample>, now: Time, quiet: nat, window: nat)
    requires Ordered(hist) && window <= CATCHUP_SAMPLE_SPAN
    requires hist != [] ==> hist[|hist| - 1].t <= now
    ensures Stalled(LogAfter(hist), now, quiet, window)
         == if hist == [] || now - hist[|hist| - 1].t >= quiet then None
            else
              var w := Recent(hist, now, window);
              var still := RunIsOld(hist, now, window) && |w| <= CATCHUP_MAX_SAMPLES && SatStill(w);
              Some((still, hist[|hist| - 1].behind))
  {
    if hist != [] {
      var w := Recent(hist, now, window);
      NewestIsKept(hist);
      JudgedIsHistorys(hist, now, window);
      StalledIs(LogAfter(hist).value, now, quiet, window, hist[|hist| - 1],
                RunIsOld(hist, now, window) && |w| <= CATCHUP_MAX_SAMPLES, w);
    }
  }

  // Which batches are judged, if any.
  lemma {:induction false} JudgedIsHistorys(hist: seq<Sample>, now: Time, window: nat)
    requires hist != [] && Ordered(hist) && window <= CATCHUP_SAMPLE_SPAN && hist[|hist| - 1].t <= now
    ensures var r, w := LogAfter(hist).value, Recent(hist, now, window);
            && (now >= window && r.since <= now - window
                <==> RunIsOld(hist, now, window) && |w| <= CATCHUP_MAX_SAMPLES)
            && (now >= window && r.since <= now - window ==> InWindow(r.samples, now - window) == w)
  {
    if now >= window {
      SinceIsHistorys(hist, now - window);
      if LogAfter(hist).value.since <= now - window {
        WindowIsKept(hist, now - window);
      }
    }
  }

  lemma StalledIs(r: Run, now: Time, quiet: nat, window: nat, x: Sample, judged: bool, w: seq<Sample>)
    requires r.last == x.t <= now && r.samples != [] && r.samples[|r.samples| - 1] == x
    requires judged == (now >= window && r.since <= now - window)
    requires judged ==> InWindow(r.samples, now - window) == w
    ensures Stalled(Some(r), now, quiet, window)
         == if now - x.t >= quiet then None else Some((judged && SatStill(w), x.behind))
  {
  }

  lemma {:induction false} NewestIsKept(hist: seq<Sample>)
    requires hist != [] && Ordered(hist)
    ensures var r, x := LogAfter(hist).value, hist[|hist| - 1];
            r.last == x.t && r.samples != [] && r.samples[|r.samples| - 1] == x
  {
    var k := LogKeeps(hist);
  }

  // `n` batches a millisecond apart, all at one distance, and one before them.
  function Steady(n: nat): seq<Sample> {
    seq(n + 1, i requires 0 <= i <= n => Sample(i, Some(1_000), 30))
  }

  // A window with more batches than the log keeps: still by the history, not by the log.
  lemma {:induction false} CrowdedIsNotStill(n: nat)
    requires CATCHUP_MAX_SAMPLES < n <= CATCHUP_SAMPLE_SPAN
    ensures RunIsOld(Steady(n), n, n) && SatStill(Recent(Steady(n), n, n))
    ensures Stalled(LogAfter(Steady(n)), n, 1, n) == Some((false, Some(1_000)))
  {
    var hist := Steady(n);
    SteadyWindow(hist, 0);
    SteadyRun(hist);
    SteadyStill(hist[1..]);
    VerdictIsHistorys(hist, n, 1, n);
  }

  lemma {:induction false} SteadyRun(hist: seq<Sample>)
    requires hist != [] && forall i | 0 <= i < |hist| :: hist[i].t == i
    ensures RunStart(hist) == 0
  {
    if |hist| > 1 {
      SteadyRun(hist[..|hist| - 1]);
    }
  }

  lemma {:induction false} SteadyWindow(hist: seq<Sample>, from: Time)
    requires hist != [] && hist[0].t <= from && forall i | 1 <= i < |hist| :: hist[i].t > from
    ensures InWindow(hist, from) == hist[1..]
  {
    AllInWindow(hist[1..], from);
  }

  lemma {:induction false} AllInWindow(s: seq<Sample>, from: Time)
    requires forall i | 0 <= i < |s| :: s[i].t > from
    ensures InWindow(s, from) == s
  {
    if s != [] {
      AllInWindow(s[1..], from);
    }
  }

  lemma SteadyStill(s: seq<Sample>)
    requires s != [] && forall i | 0 <= i < |s| :: s[i].behind == Some(1_000) && s[i].width == 30
    ensures SatStill(s)
  {
    Constant(Distances(s), 1_000);
    NotClosing(Distances(s), 1_000);
    Constant(Widths(s), 30);
  }

  lemma NotClosing(d: seq<int>, c: int)
    requires d != [] && forall i | 0 <= i < |d| :: d[i] == c
    ensures !Closing(d)
  {
    var third := if |d| / 3 >= 1 then |d| / 3 else 1;
    Constant(d[..third], c);
    Constant(d[|d| - third..], c);
  }

  lemma {:induction false} Constant(s: seq<int>, c: int)
    requires s != [] && forall i | 0 <= i < |s| :: s[i] == c
    ensures MinOf(s) == MaxOf(s) == Median(s) == c
  {
    if |s| > 1 {
      Constant(s[1..], c);
    }
    SortSorted(s);
    SortElement(s, |s| / 2);
  }

  // What "still" says of the batches: any two are within the band of each other.
  lemma StillMeans(s: seq<Sample>, i: nat, j: nat)
    requires SatStill(s) && i < |s| && j < |s|
    ensures s[i].behind.value - s[j].behind.value < CATCHUP_PROGRESS_ROUNDS
  {
    MinMaxBound(Distances(s), i);
    MinMaxBound(Distances(s), j);
  }

  lemma {:induction false} MinMaxBound(s: seq<int>, i: nat)
    requires i < |s|
    ensures MinOf(s) <= s[i] <= MaxOf(s)
  {
    if |s| > 1 {
      if i > 0 {
        MinMaxBound(s[1..], i - 1);
      }
    }
  }
}
