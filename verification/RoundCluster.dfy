/**
 The network tip from probed rounds: the lower median of the longest run of close rounds
 (`src/protocol.rs`, `best_round_cluster` and `corroborated_clustered_round`; used by
 `src/peerd/daemon.rs`).
 */
module RoundCluster {
  import opened Primitives
  import opened Sorting

  // `s[lo..hi]` is a maximal stretch with every step at most `gap`.
  ghost predicate IsRun(s: seq<int>, gap: int, lo: nat, hi: nat) {
    && lo < hi <= |s|
    && Close(s, gap, lo, hi)
    && (lo == 0 || !Near(s, gap, lo))
    && (hi == |s| || !Near(s, gap, hi))
  }

  ghost predicate Close(s: seq<int>, gap: int, lo: nat, hi: nat)
    requires lo < hi <= |s|
  {
    forall j | lo < j < hi :: Near(s, gap, j)
  }

  // The `j`th is within `gap` of the one before.
  predicate Near(s: seq<int>, gap: int, j: nat)
    requires 0 < j < |s|
  {
    s[j] - s[j - 1] <= gap
  }

  // Two runs are the same or do not overlap.
  lemma RunsDisjoint(s: seq<int>, gap: int, lo: nat, hi: nat, lo': nat, hi': nat)
    requires IsRun(s, gap, lo, hi) && IsRun(s, gap, lo', hi')
    ensures (lo == lo' && hi == hi') || hi <= lo' || hi' <= lo
  {
  }

  // Among the runs ending by `k`: none is longer, and none as long is higher.
  ghost predicate BestBy(s: seq<int>, gap: int, k: nat, lo: nat, hi: nat) {
    && IsRun(s, gap, lo, hi) && hi <= k
    && forall x: nat, y: nat | IsRun(s, gap, x, y) && y <= k :: y - x < hi - lo || (y - x == hi - lo && x <= lo)
  }

  ghost predicate IsBest(s: seq<int>, gap: int, lo: nat, hi: nat) {
    BestBy(s, gap, |s|, lo, hi)
  }

  // A run that ends at `i` and started where the last one ended is the only new one.
  lemma BestExtends(s: seq<int>, gap: int, start: nat, i: nat, lo: nat, hi: nat)
    requires IsRun(s, gap, start, i)
    requires start > 0 ==> BestBy(s, gap, start, lo, hi)
    requires start == 0 ==> lo == 0 && hi == 1
    ensures if i - start >= hi - lo then BestBy(s, gap, i, start, i) else BestBy(s, gap, i, lo, hi)
  {
    forall x: nat, y: nat | IsRun(s, gap, x, y) && y <= i
      ensures y <= start || (x == start && y == i)
    {
      RunsDisjoint(s, gap, start, i, x, y);
    }
  }

  method SortInPlace(a: array<u32>)
    modifies a
    ensures a[..] == Sort(old(a[..]))
  {
    var s := Sort(a[..]);
    SortSorted(a[..]);
    forall j | 0 <= j < |s| ensures 0 <= s[j] <= U32_MAX {
      SortElement(a[..], j);
    }
    for i := 0 to a.Length
      invariant a[..i] == s[..i]
    {
      a[i] := s[i];
    }
    assert a[..] == s;
  }

  // `r` is the best run, if it is no smaller than `min`.
  ghost predicate IsCluster(s: seq<int>, min: nat, gap: int, r: Option<(nat, nat)>) {
    exists lo: nat, hi: nat :: IsBest(s, gap, lo, hi) && r == if hi - lo >= min then Some((lo, hi)) else None
  }

  // The best run, if it is no smaller than `minCluster`.
  method BestRoundCluster(rounds: array<u32>, minCluster: nat, maxGap: u32) returns (r: Option<(nat, nat)>)
    modifies rounds
    ensures r.Some? ==> r.value.0 < r.value.1 <= rounds.Length
    ensures rounds.Length < minCluster || minCluster == 0 ==> r == None && rounds[..] == old(rounds[..])
    ensures !(rounds.Length < minCluster || minCluster == 0) ==>
      && rounds[..] == Sort(old(rounds[..])) && Sorted(rounds[..])
      && IsCluster(Sort(old(rounds[..])), minCluster, maxGap, r)
  {
    if rounds.Length < minCluster || minCluster == 0 {
      return None;
    }
    SortInPlace(rounds);
    SortSorted(old(rounds[..]));
    var lo, hi := LongestRun(rounds[..], maxGap);
    return if hi - lo >= minCluster then Some((lo, hi)) else None;
  }

  // The scan has come to `i`: an open run since `start`, and the best of those before it.
  ghost predicate Scanning(s: seq<int>, gap: int, i: nat, start: nat, lo: nat, hi: nat) {
    && start < i <= |s| + 1 && lo <= hi
    && (i <= |s| ==> Close(s, gap, start, i) && (start == 0 || !Near(s, gap, start)))
    && (i == |s| + 1 ==> start == |s|)
    && if start == 0 then lo == 0 && hi == 1 else BestBy(s, gap, start, lo, hi)
  }

  lemma ScanStep(s: seq<int>, gap: int, i: nat, start: nat, lo: nat, hi: nat)
    requires i <= |s| && Scanning(s, gap, i, start, lo, hi)
    ensures if i < |s| && Near(s, gap, i) then Scanning(s, gap, i + 1, start, lo, hi)
            else if i - start >= hi - lo then Scanning(s, gap, i + 1, i, start, i)
            else Scanning(s, gap, i + 1, i, lo, hi)
  {
    if i == |s| || !Near(s, gap, i) {
      BestExtends(s, gap, start, i, lo, hi);
    }
  }

  // The scan over the sorted rounds.
  method LongestRun(s: seq<int>, gap: u32) returns (lo: nat, hi: nat)
    requires s != [] && Sorted(s)
    ensures IsBest(s, gap, lo, hi)
  {
    lo, hi := 0, 1;
    var start := 0;
    for i := 1 to |s| + 1
      invariant Scanning(s, gap, i, start, lo, hi)
    {
      ScanStep(s, gap, i, start, lo, hi);
      if i < |s| && s[i] - s[i - 1] <= gap {
        continue;
      }
      if i - start >= hi - lo {
        lo, hi := start, i;
      }
      start := i;
    }
  }

  // ---- the majority theorem ----

  function CountIn(s: seq<int>, a: int, b: int): nat {
    if s == [] then 0 else (if a <= s[0] <= b then 1 else 0) + CountIn(s[1..], a, b)
  }

  // More than half of the rounds lie in [a, b].
  predicate MostIn(s: seq<int>, a: int, b: int) {
    2 * CountIn(s, a, b) > |s|
  }

  lemma {:induction false} CountInsert(x: int, s: seq<int>, a: int, b: int)
    ensures CountIn(Insert(x, s), a, b) == (if a <= x <= b then 1 else 0) + CountIn(s, a, b)
  {
    if s == [] || x <= s[0] {
      assert ([x] + s)[1..] == s;
    } else {
      CountInsert(x, s[1..], a, b);
      assert ([s[0]] + Insert(x, s[1..]))[1..] == Insert(x, s[1..]);
    }
  }

  lemma {:induction false} CountSort(s: seq<int>, a: int, b: int)
    ensures CountIn(Sort(s), a, b) == CountIn(s, a, b)
  {
    if s != [] {
      CountSort(s[1..], a, b);
      CountInsert(s[0], Sort(s[1..]), a, b);
    }
  }

  // In sorted order the rounds in [a, b] are next to each other.
  lemma {:induction false} CountIsBlock(s: seq<int>, a: int, b: int) returns (p: nat, q: nat)
    requires Sorted(s)
    ensures p <= q <= |s| && q - p == CountIn(s, a, b)
    ensures forall i | 0 <= i < |s| :: p <= i < q ==> a <= s[i] <= b
  {
    if s == [] {
      p, q := 0, 0;
    } else {
      var x, y := CountIsBlock(s[1..], a, b);
      if a <= s[0] <= b {
        p := 0;
        q := BlockFromStart(s, a, b);
      } else {
        p, q := x + 1, y + 1;
        forall i | p <= i < q ensures a <= s[i] <= b {
          assert s[i] == s[1..][i - 1];
        }
      }
    }
  }

  lemma {:induction false} BlockFromStart(s: seq<int>, a: int, b: int) returns (q: nat)
    requires Sorted(s) && s != [] && a <= s[0] <= b
    ensures q <= |s| && q == CountIn(s, a, b)
    ensures forall i | 0 <= i < q :: a <= s[i] <= b
  {
    if |s| == 1 || s[1] > b {
      q := 1;
      NoneIn(s[1..], a, b);
    } else {
      q := BlockFromStart(s[1..], a, b);
      q := q + 1;
      forall i | 0 <= i < q ensures a <= s[i] <= b {
        if i > 0 {
          assert s[i] == s[1..][i - 1];
        }
      }
    }
  }

  lemma {:induction false} NoneIn(s: seq<int>, a: int, b: int)
    requires forall i | 0 <= i < |s| :: s[i] > b
    ensures CountIn(s, a, b) == 0
  {
    if s != [] {
      NoneIn(s[1..], a, b);
    }
  }

  // Any close stretch is part of a run.
  lemma RunAround(s: seq<int>, gap: int, p: nat, q: nat) returns (lo: nat, hi: nat)
    requires p < q <= |s| && Close(s, gap, p, q)
    ensures IsRun(s, gap, lo, hi) && lo <= p && q <= hi
  {
    lo, hi := p, q;
    while lo > 0 && Near(s, gap, lo)
      invariant lo <= p && Close(s, gap, lo, q)
    {
      lo := lo - 1;
    }
    while hi < |s| && Near(s, gap, hi)
      invariant lo < q <= hi <= |s| && Close(s, gap, lo, hi)
    {
      hi := hi + 1;
    }
  }

  // The lower median of the best run lies wherever most of the rounds are, whatever the rest say.
  lemma MajorityMedian(s: seq<int>, gap: int, a: int, b: int, lo: nat, hi: nat)
    requires Sorted(s) && |s| >= 2 && IsBest(s, gap, lo, hi)
    requires MostIn(s, a, b) && b - a <= gap
    ensures hi - lo >= 2
    ensures a <= s[lo + (hi - lo - 1) / 2] <= b
  {
    var p, q := CountIsBlock(s, a, b);
    assert Close(s, gap, p, q);
    var x, y := RunAround(s, gap, p, q);
    RunsDisjoint(s, gap, lo, hi, x, y);
  }

  // ---- the tip ----

  // `tip` is the lower median of the best cluster of `rounds`, if that has `min` members.
  ghost predicate IsTip(rounds: seq<int>, min: nat, gap: int, tip: Option<int>) {
    if |rounds| < min then tip == None
    else exists lo: nat, hi: nat :: IsBest(Sort(rounds), gap, lo, hi)
                                    && tip == if hi - lo >= min then Some(LowerMedian(Sort(rounds), lo, hi)) else None
  }

  function LowerMedian(s: seq<int>, lo: nat, hi: nat): int
    requires lo < hi <= |s|
  {
    s[lo + (hi - lo - 1) / 2]
  }

  // Where most of at least two rounds are within the gap of each other, there the tip is.
  lemma MajorityTip(rounds: seq<int>, gap: int, tip: Option<int>, a: int, b: int)
    requires |rounds| >= 2 && IsTip(rounds, 2, gap, tip)
    requires MostIn(rounds, a, b) && b - a <= gap
    ensures tip.Some? && a <= tip.value <= b
  {
    var s := Sort(rounds);
    var lo: nat, hi: nat :| IsBest(s, gap, lo, hi)
                            && tip == if hi - lo >= 2 then Some(LowerMedian(s, lo, hi)) else None;
    CountSort(rounds, a, b);
    SortSorted(rounds);
    MajorityMedian(s, gap, a, b, lo, hi);
  }

  // There is one best run.
  lemma BestUnique(s: seq<int>, gap: int, lo: nat, hi: nat, lo': nat, hi': nat)
    requires IsBest(s, gap, lo, hi) && IsBest(s, gap, lo', hi')
    ensures lo == lo' && hi == hi'
  {
    RunsDisjoint(s, gap, lo, hi, lo', hi');
  }

  lemma ClusterMedian(s: seq<int>, a: int, b: int, lo: nat, hi: nat)
    requires Sorted(s) && lo < hi <= |s| && MostIn(s[lo..hi], a, b)
    ensures a <= LowerMedian(s, lo, hi) <= b
  {
    var c := s[lo..hi];
    var p, q := CountIsBlock(c, a, b);
    assert a <= c[(hi - lo - 1) / 2] <= b;
  }

  // Where most of the best cluster is, there the tip is, however wide the cluster and whatever lies
  // outside it.
  lemma ClusterMajorityTip(rounds: seq<int>, min: nat, gap: int, tip: Option<int>, lo: nat, hi: nat, a: int, b: int)
    requires IsTip(rounds, min, gap, tip) && tip.Some?
    requires IsBest(Sort(rounds), gap, lo, hi) && MostIn(Sort(rounds)[lo..hi], a, b)
    ensures a <= tip.value <= b
  {
    var s := Sort(rounds);
    var lo': nat, hi': nat :| IsBest(s, gap, lo', hi')
                              && tip == if hi' - lo' >= min then Some(LowerMedian(s, lo', hi')) else None;
    SortSorted(rounds);
    BestUnique(s, gap, lo, hi, lo', hi');
    ClusterMedian(s, a, b, lo, hi);
  }

  // A tip is a reported round with another one within the gap above it: one peer alone cannot set it.
  lemma {:induction false} TipCorroborated(rounds: seq<int>, min: nat, gap: int, tip: Option<int>)
    requires min >= 2 && IsTip(rounds, min, gap, tip) && tip.Some?
    ensures tip.value in rounds && CountIn(rounds, tip.value, tip.value + gap) >= 2
  {
    var lo: nat, hi: nat :| IsBest(Sort(rounds), gap, lo, hi)
                            && tip == if hi - lo >= min then Some(LowerMedian(Sort(rounds), lo, hi)) else None;
    MedianCorroborated(rounds, gap, lo, hi);
  }

  lemma {:induction false} MedianCorroborated(rounds: seq<int>, gap: int, lo: nat, hi: nat)
    requires IsRun(Sort(rounds), gap, lo, hi) && hi - lo >= 2
    ensures var t := LowerMedian(Sort(rounds), lo, hi);
            t in rounds && CountIn(rounds, t, t + gap) >= 2
  {
    var s, k := Sort(rounds), lo + (hi - lo - 1) / 2;
    SortSorted(rounds);
    SortElement(rounds, k);
    MedianHasNeighbour(s, gap, lo, hi);
    TwoNear(rounds, s, s[k], s[k] + gap, k);
  }

  lemma {:induction false} TwoNear(rounds: seq<int>, s: seq<int>, a: int, b: int, k: nat)
    requires s == Sort(rounds) && k + 1 < |s| && a <= s[k] <= b && a <= s[k + 1] <= b
    ensures CountIn(rounds, a, b) >= 2
  {
    CountSort(rounds, a, b);
    CountsTwo(s, a, b, k);
  }

  lemma MedianHasNeighbour(s: seq<int>, gap: int, lo: nat, hi: nat)
    requires Sorted(s) && IsRun(s, gap, lo, hi) && hi - lo >= 2
    ensures var k := lo + (hi - lo - 1) / 2;
            k + 1 < |s| && s[k] <= s[k + 1] <= s[k] + gap
  {
    assert Near(s, gap, lo + (hi - lo - 1) / 2 + 1);
  }

  lemma {:induction false} CountsTwo(s: seq<int>, a: int, b: int, k: nat)
    requires k + 1 < |s| && a <= s[k] <= b && a <= s[k + 1] <= b
    ensures CountIn(s, a, b) >= 2
  {
    if k > 0 {
      CountsTwo(s[1..], a, b, k - 1);
    } else {
      assert s[1..][0] == s[1];
    }
  }

  lemma TipOfCluster(rounds: seq<int>, s: seq<int>, min: nat, gap: int, c: Option<(nat, nat)>, tip: Option<u32>)
    requires |rounds| < min ==> c == None
    requires |rounds| >= min ==> s == Sort(rounds) && IsCluster(s, min, gap, c)
    requires tip == if c.None? then None else var (lo, hi) := c.value; Some(s[lo + (hi - lo - 1) / 2])
    ensures IsTip(rounds, min, gap, tip)
  {
  }

  method CorroboratedClusteredRound(rounds: array<u32>, minCluster: nat, maxGap: u32) returns (tip: Option<u32>)
    modifies rounds
    ensures IsTip(old(rounds[..]), if minCluster >= 2 then minCluster else 2, maxGap, tip)
  {
    var min := if minCluster >= 2 then minCluster else 2;
    var c := BestRoundCluster(rounds, min, maxGap);
    if c.None? {
      tip := None;
    } else {
      var (lo, hi) := c.value;
      tip := Some(rounds[lo + (hi - lo - 1) / 2]);
    }
    TipOfCluster(old(rounds[..]), rounds[..], min, maxGap, c, tip);
  }
}
