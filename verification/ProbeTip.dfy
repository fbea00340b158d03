/**
 The tip peerd publishes from its probes, and the peers it keeps as live
 (`src/peerd/daemon.rs`, `clustered_probe_tip` and `split_live_by_tip`).
 */
module ProbeTip {
  import opened Primitives
  import opened RoundCluster

  const MAX_LIVE_ROUND_LAG: u32 := 50_000

  datatype Probe = Probe(ip: string, maxRound: Option<u32>)

  // The rounds the probes reported.
  function Reported(probes: seq<Probe>): seq<u32> {
    if probes == [] then [] else RoundOf(probes[0]) + Reported(probes[1..])
  }

  function RoundOf(p: Probe): seq<u32> {
    if p.maxRound.Some? then [p.maxRound.value] else []
  }

  lemma {:induction false} ReportedOneMore(probes: seq<Probe>, p: Probe)
    ensures Reported(probes + [p]) == Reported(probes) + RoundOf(p)
    decreases |probes|
  {
    if probes == [] {
      assert [] + [p] == [p];
      assert Reported([p]) == RoundOf(p) + Reported([]);
    } else {
      var rest := probes[1..];
      assert (probes + [p])[0] == probes[0] && (probes + [p])[1..] == rest + [p];
      ReportedOneMore(rest, p);
      assert Reported(probes + [p]) == RoundOf(probes[0]) + (Reported(rest) + RoundOf(p));
    }
  }

  method ClusteredProbeTip(probes: seq<Probe>) returns (tip: Option<u32>)
    ensures IsTip(Reported(probes), 2, MAX_LIVE_ROUND_LAG, tip)
    ensures |Reported(probes)| >= 2 ==>
      forall a, b | MostIn(Reported(probes), a, b) && b - a <= MAX_LIVE_ROUND_LAG :: tip.Some? && a <= tip.value <= b
  {
    var rounds: seq<u32> := [];
    for i := 0 to |probes|
      invariant rounds == Reported(probes[..i])
    {
      ReportedOneMore(probes[..i], probes[i]);
      assert probes[..i + 1] == probes[..i] + [probes[i]];
      if probes[i].maxRound.Some? {
        rounds := rounds + [probes[i].maxRound.value];
      }
    }
    assert probes[..|probes|] == probes;
    var a := new u32[|rounds|](i requires 0 <= i < |rounds| => rounds[i]);
    assert a[..] == rounds;
    tip := CorroboratedClusteredRound(a, 2, MAX_LIVE_ROUND_LAG);
    forall a, b | |rounds| >= 2 && MostIn(rounds, a, b) && b - a <= MAX_LIVE_ROUND_LAG
      ensures tip.Some? && a <= tip.value <= b
    {
      MajorityTip(rounds, MAX_LIVE_ROUND_LAG, tip, a, b);
    }
  }

  // ---- live and lagged peers ----

  predicate NearTip(p: Probe, tip: u32) {
    && p.maxRound.Some?
    && SatAdd(p.maxRound.value, MAX_LIVE_ROUND_LAG) >= tip
    && p.maxRound.value <= SatAdd(tip, MAX_LIVE_ROUND_LAG)
  }

  function Live(probes: seq<Probe>, tip: Option<u32>): seq<Probe> {
    if probes == [] then []
    else (if tip.None? || NearTip(probes[0], tip.value) then [probes[0]] else []) + Live(probes[1..], tip)
  }

  function Lagged(probes: seq<Probe>, tip: Option<u32>): seq<string> {
    if probes == [] then []
    else (if tip.None? || NearTip(probes[0], tip.value) then [] else [probes[0].ip]) + Lagged(probes[1..], tip)
  }

  lemma {:induction false} SplitOneMore(probes: seq<Probe>, p: Probe, tip: Option<u32>)
    ensures Live(probes + [p], tip)
            == Live(probes, tip) + (if tip.None? || NearTip(p, tip.value) then [p] else [])
    ensures Lagged(probes + [p], tip)
            == Lagged(probes, tip) + (if tip.None? || NearTip(p, tip.value) then [] else [p.ip])
  {
    if probes == [] {
      assert [] + [p] == [p];
    } else {
      assert (probes + [p])[0] == probes[0] && (probes + [p])[1..] == probes[1..] + [p];
      SplitOneMore(probes[1..], p, tip);
    }
  }

  lemma {:induction false} AllLive(probes: seq<Probe>)
    ensures Live(probes, None) == probes && Lagged(probes, None) == []
  {
    if probes != [] {
      AllLive(probes[1..]);
    }
  }

  method SplitLiveByTip(probes: seq<Probe>, tip: Option<u32>) returns (live: seq<Probe>, lagged: seq<string>)
    ensures live == Live(probes, tip) && lagged == Lagged(probes, tip)
  {
    if tip.None? {
      AllLive(probes);
      return probes, [];
    }
    live, lagged := [], [];
    for i := 0 to |probes|
      invariant live == Live(probes[..i], tip) && lagged == Lagged(probes[..i], tip)
    {
      SplitOneMore(probes[..i], probes[i], tip);
      assert probes[..i + 1] == probes[..i] + [probes[i]];
      if NearTip(probes[i], tip.value) {
        live := live + [probes[i]];
      } else {
        lagged := lagged + [probes[i].ip];
      }
    }
    assert probes[..|probes|] == probes;
  }

  // A peer is kept exactly when its round is within the lag window of the tip.
  lemma {:induction false} LiveIff(probes: seq<Probe>, tip: Option<u32>, p: Probe)
    ensures p in Live(probes, tip) <==> p in probes && (tip.None? || NearTip(p, tip.value))
  {
    if probes != [] {
      LiveIff(probes[1..], tip, p);
      assert p in probes <==> p == probes[0] || p in probes[1..];
    }
  }

  // Every peer of the majority is kept, whatever the others report.
  lemma {:induction false} MajorityKept(probes: seq<Probe>, tip: Option<u32>, a: int, b: int, p: Probe)
    requires |Reported(probes)| >= 2 && IsTip(Reported(probes), 2, MAX_LIVE_ROUND_LAG, tip)
    requires MostIn(Reported(probes), a, b) && b - a <= MAX_LIVE_ROUND_LAG
    requires p in probes && p.maxRound.Some? && a <= p.maxRound.value <= b
    ensures p in Live(probes, tip)
  {
    MajorityTip(Reported(probes), MAX_LIVE_ROUND_LAG, tip, a, b);
    LiveIff(probes, tip, p);
  }
}
