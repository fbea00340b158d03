/**
 Which candidates the peer daemon probes in a cycle (`src/peerd/daemon.rs`,
 `select_probe_candidates`): some of the peers that were live before, then the candidate list from
 where the last cycle stopped, around its end.

 What a cycle selects is stated as a relation; over any run of cycles, whatever the lists of live
 peers were, the rotation reaches every candidate.
 */
module ProbeRotation {
  import opened Primitives

  type Ip = string

  function PerCycle(maxPerCycle: nat): nat {
    Max(maxPerCycle, 1)
  }

  // How many of the previously live peers a cycle may keep.
  function PreviousLimit(maxPerCycle: nat): nat {
    Max(PerCycle(maxPerCycle) / 2, 1)
  }

  // The candidates a cycle scans at least, if there are so many.
  function Step(maxPerCycle: nat): nat {
    maxPerCycle - maxPerCycle / 2
  }

  // ---- one cycle ----

  // `previous` and `before` are given, `selected` and `after` come out. `taken` previous peers were
  // looked at and the first `kept` of the selection come from them; `scanned` candidates were
  // looked at from the cursor on.
  datatype Cycle = Cycle(previous: seq<Ip>, before: nat, selected: seq<Ip>, after: nat,
                         taken: nat, kept: nat, scanned: nat)

  ghost predicate IsCycle(all: seq<Ip>, maxPerCycle: nat, c: Cycle) {
    && NoDuplicates(c.selected) && |c.selected| <= PerCycle(maxPerCycle)
    && KeepsPrevious(all, maxPerCycle, c)
    && if c.kept == PerCycle(maxPerCycle) || all == [] then
         c.scanned == 0 && c.after == c.before && |c.selected| == c.kept
       else
         ScansOn(all, maxPerCycle, c)
  }

  // The kept ones are the candidates among the first `taken` previous peers: all of them, or as many
  // as may be kept.
  ghost predicate KeepsPrevious(all: seq<Ip>, maxPerCycle: nat, c: Cycle) {
    && c.taken <= |c.previous| && c.kept <= |c.selected| && c.kept <= PreviousLimit(maxPerCycle)
    && (forall ip :: ip in c.selected[..c.kept] <==> ip in c.previous[..c.taken] && ip in all)
    && (c.kept == PreviousLimit(maxPerCycle) || c.taken == |c.previous|)
  }

  // The rest are the scanned candidates that were not kept; the scan stops where the selection is
  // full, or after the whole list.
  ghost predicate ScansOn(all: seq<Ip>, maxPerCycle: nat, c: Cycle)
    requires all != []
  {
    && c.scanned <= |all|
    && c.after == (c.before % |all| + c.scanned) % |all|
    && c.kept <= |c.selected| <= c.kept + c.scanned
    && (forall off | 0 <= off < c.scanned :: Candidate(all, c.before, off) in c.selected)
    && (forall i | c.kept <= i < |c.selected| :: InWindow(all, c.before, c.scanned, c.selected[i]))
    && (|c.selected| < PerCycle(maxPerCycle) ==> c.scanned == |all|)
    && (|c.selected| == PerCycle(maxPerCycle) ==>
          c.scanned > 0 && Candidate(all, c.before, c.scanned - 1) == c.selected[|c.selected| - 1])
  }

  function Candidate(all: seq<Ip>, cursor: nat, off: nat): Ip
    requires all != []
  {
    all[(cursor % |all| + off) % |all|]
  }

  ghost predicate InWindow(all: seq<Ip>, cursor: nat, scanned: nat, ip: Ip)
    requires all != []
  {
    exists off :: 0 <= off < scanned && Candidate(all, cursor, off) == ip
  }

  method KeepPrevious(all: seq<Ip>, previous: seq<Ip>, limit: nat) returns (selected: seq<Ip>, ghost taken: nat)
    ensures NoDuplicates(selected) && |selected| <= limit && taken <= |previous|
    ensures forall ip :: ip in selected <==> ip in previous[..taken] && ip in all
    ensures |selected| == limit || taken == |previous|
  {
    selected, taken := [], 0;
    for i := 0 to |previous|
      invariant taken == i && NoDuplicates(selected) && |selected| <= limit
      invariant forall ip :: ip in selected <==> ip in previous[..i] && ip in all
    {
      if |selected| >= limit {
        return;
      }
      var ip := previous[i];
      assert previous[..i + 1] == previous[..i] + [ip];
      if ip in all && ip !in selected {
        selected := selected + [ip];
      }
      taken := taken + 1;
    }
  }

  // The state of the scan, `scanned` candidates in.
  ghost predicate Scanned(all: seq<Ip>, cursor: nat, kept: seq<Ip>, selected: seq<Ip>, scanned: nat)
    requires all != []
  {
    && NoDuplicates(selected) && |kept| <= |selected| <= |kept| + scanned && selected[..|kept|] == kept
    && (forall off | 0 <= off < scanned :: Candidate(all, cursor, off) in selected)
    && (forall i | |kept| <= i < |selected| :: InWindow(all, cursor, scanned, selected[i]))
  }

  lemma ScanStep(all: seq<Ip>, cursor: nat, kept: seq<Ip>, selected: seq<Ip>, scanned: nat)
    requires all != [] && Scanned(all, cursor, kept, selected, scanned)
    ensures var ip := Candidate(all, cursor, scanned);
            Scanned(all, cursor, kept, if ip in selected then selected else selected + [ip], scanned + 1)
  {
    var ip := Candidate(all, cursor, scanned);
    var selected' := if ip in selected then selected else selected + [ip];
    assert forall x :: x in selected ==> x in selected';
    forall i | |kept| <= i < |selected'| ensures InWindow(all, cursor, scanned + 1, selected'[i]) {
      if i < |selected| {
        assert InWindow(all, cursor, scanned, selected[i]);
      }
    }
  }

  method Scan(all: seq<Ip>, cursor: nat, kept: seq<Ip>, limit: nat) returns (selected: seq<Ip>, scanned: nat)
    requires all != [] && NoDuplicates(kept) && |kept| < limit
    ensures Scanned(all, cursor, kept, selected, scanned) && scanned <= |all| && |selected| <= limit
    ensures |selected| < limit ==> scanned == |all|
    ensures |selected| == limit ==>
              scanned > 0 && Candidate(all, cursor, scanned - 1) == selected[|selected| - 1]
  {
    selected, scanned := kept, 0;
    for off := 0 to |all|
      invariant scanned == off && |selected| < limit
      invariant Scanned(all, cursor, kept, selected, scanned)
    {
      ScanStep(all, cursor, kept, selected, scanned);
      scanned := off + 1;
      var ip := Candidate(all, cursor, off);
      if ip !in selected {
        selected := selected + [ip];
        if |selected| >= limit {
          break;
        }
      }
    }
  }

  method SelectProbeCandidates(all: seq<Ip>, previous: seq<Ip>, maxPerCycle: nat, cursor: nat)
    returns (selected: seq<Ip>, cursor': nat, ghost taken: nat, ghost kept: nat, ghost scanned: nat)
    ensures IsCycle(all, maxPerCycle, Cycle(previous, cursor, selected, cursor', taken, kept, scanned))
    ensures forall ip :: ip in selected ==> ip in all
  {
    var limit := PerCycle(maxPerCycle);
    var first;
    first, taken := KeepPrevious(all, previous, PreviousLimit(maxPerCycle));
    selected, cursor', kept, scanned := first, cursor, |first|, 0;
    assert selected[..kept] == first;
    if |first| < limit && all != [] {
      var seen;
      selected, seen := Scan(all, cursor, first, limit);
      cursor' := (cursor % |all| + seen) % |all|;
      scanned := seen;
    }
    ghost var c := Cycle(previous, cursor, selected, cursor', taken, kept, scanned);
    assert KeepsPrevious(all, maxPerCycle, c);
    SelectedAreCandidates(all, maxPerCycle, c);
  }

  lemma SelectedAreCandidates(all: seq<Ip>, maxPerCycle: nat, c: Cycle)
    requires IsCycle(all, maxPerCycle, c)
    ensures forall ip :: ip in c.selected ==> ip in all
  {
    forall i | 0 <= i < |c.selected| ensures c.selected[i] in all {
      if i < c.kept {
        assert c.selected[i] in c.selected[..c.kept];
      } else {
        assert InWindow(all, c.before, c.scanned, c.selected[i]);
      }
    }
  }

  // ---- runs ----

  // Cycles over the same list, each from the cursor the one before left.
  ghost predicate IsRun(all: seq<Ip>, maxPerCycle: nat, run: seq<Cycle>) {
    && (forall k | 0 <= k < |run| :: IsCycle(all, maxPerCycle, run[k]))
    && (forall k | 0 < k < |run| :: run[k].before == run[k - 1].after)
  }

  ghost predicate SelectedIn(run: seq<Cycle>, ip: Ip) {
    exists k :: 0 <= k < |run| && ip in run[k].selected
  }

  // How far ahead of the cursor the `x`th candidate is.
  function Ahead(n: nat, cursor: nat, x: nat): (d: nat)
    requires x < n
    ensures d < n
  {
    var start := cursor % n;
    if x >= start then x - start else x + n - start
  }

  lemma AheadIs(all: seq<Ip>, cursor: nat, x: nat)
    requires x < |all|
    ensures Candidate(all, cursor, Ahead(|all|, cursor, x)) == all[x]
  {
    var n, start := |all|, cursor % |all|;
    Wraps(n, start + Ahead(n, cursor, x));
  }

  lemma Wraps(n: nat, i: nat)
    requires 0 < n && i < 2 * n
    ensures i % n == if i < n then i else i - n
  {
    if i < n {
      assert i / n == 0;
    } else {
      assert i / n == 1 by {
        assert i == n * 1 + (i - n);
      }
    }
  }

  // A cycle that does not reach a candidate brings the cursor closer to it.
  lemma Closer(all: seq<Ip>, cursor: nat, scanned: nat, x: nat)
    requires x < |all| && scanned <= Ahead(|all|, cursor, x)
    ensures Ahead(|all|, (cursor % |all| + scanned) % |all|, x) == Ahead(|all|, cursor, x) - scanned
  {
    var n, start := |all|, cursor % |all|;
    Wraps(n, start + scanned);
    Wraps(n, (start + scanned) % n);
  }

  lemma ScansEnough(all: seq<Ip>, maxPerCycle: nat, c: Cycle)
    requires all != [] && maxPerCycle >= 2 && IsCycle(all, maxPerCycle, c)
    ensures ScansOn(all, maxPerCycle, c)
    ensures c.scanned == |all| || c.scanned >= Step(maxPerCycle) >= 1
  {
  }

  lemma {:induction false} ReachesWithin(all: seq<Ip>, maxPerCycle: nat, run: seq<Cycle>, x: nat, bound: nat)
    requires maxPerCycle >= 2 && run != [] && IsRun(all, maxPerCycle, run) && x < |all|
    requires Ahead(|all|, run[0].before, x) < bound <= |run| * Step(maxPerCycle)
    ensures SelectedIn(run, all[x])
    decreases |run|
  {
    var c, step := run[0], Step(maxPerCycle);
    var d := Ahead(|all|, c.before, x);
    ScansEnough(all, maxPerCycle, c);
    if d < c.scanned {
      AheadIs(all, c.before, x);
      assert all[x] in run[0].selected;
    } else {
      var rest := run[1..];
      OneLess(|run|, step, bound);
      Closer(all, c.before, c.scanned, x);
      RunContinues(all, maxPerCycle, run);
      ReachesWithin(all, maxPerCycle, rest, x, bound - step);
      SelectedLater(run, all[x]);
    }
  }

  lemma OneLess(cycles: nat, step: nat, bound: nat)
    requires cycles > 0 && step < bound <= cycles * step
    ensures cycles > 1 && bound - step <= (cycles - 1) * step
  {
    assert cycles * step == (cycles - 1) * step + step;
    assert cycles == 1 ==> (cycles - 1) * step == 0;
  }

  lemma RunContinues(all: seq<Ip>, maxPerCycle: nat, run: seq<Cycle>)
    requires IsRun(all, maxPerCycle, run) && |run| > 1
    ensures IsRun(all, maxPerCycle, run[1..]) && run[1..][0].before == run[0].after
  {
    var rest := run[1..];
    assert forall k | 0 <= k < |rest| :: rest[k] == run[k + 1];
  }

  lemma SelectedLater(run: seq<Cycle>, ip: Ip)
    requires run != [] && SelectedIn(run[1..], ip)
    ensures SelectedIn(run, ip)
  {
    var k :| 0 <= k < |run[1..]| && ip in run[1..][k].selected;
    assert ip in run[k + 1].selected;
  }

  // With at least two per cycle, enough cycles for `n` candidates at `m - m / 2` a cycle select every
  // one of them, whatever was live before.
  lemma RotationIsFair(all: seq<Ip>, maxPerCycle: nat, run: seq<Cycle>, ip: Ip)
    requires maxPerCycle >= 2 && IsRun(all, maxPerCycle, run) && ip in all
    requires |run| * Step(maxPerCycle) >= |all|
    ensures SelectedIn(run, ip)
  {
    var x :| 0 <= x < |all| && all[x] == ip;
    assert run == [] ==> |run| * Step(maxPerCycle) == 0;
    ReachesWithin(all, maxPerCycle, run, x, |all|);
  }

  // With one per cycle, a peer that stays live is all that is ever selected.
  lemma OnePerCycleStarves(all: seq<Ip>, maxPerCycle: nat, run: seq<Cycle>, live: Ip)
    requires maxPerCycle < 2 && IsRun(all, maxPerCycle, run) && live in all
    requires forall k | 0 <= k < |run| :: run[k].previous == [live]
    ensures forall k | 0 <= k < |run| :: run[k].selected == [live] && run[k].after == run[k].before
  {
    forall k | 0 <= k < |run| ensures run[k].selected == [live] && run[k].after == run[k].before {
      OneKept(all, maxPerCycle, run[k], live);
    }
  }

  lemma OneKept(all: seq<Ip>, maxPerCycle: nat, c: Cycle, live: Ip)
    requires maxPerCycle < 2 && IsCycle(all, maxPerCycle, c) && live in all && c.previous == [live]
    ensures c.selected == [live] && c.after == c.before
  {
    assert c.taken == |c.previous| ==> c.previous[..c.taken] == [live];
    assert live in [live];
    assert c.selected[..c.kept][0] in c.previous[..c.taken];
  }
}
