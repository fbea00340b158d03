/**
 The freshest round a gateway's streams have reached, as vouched for by two peers
 (`src/push/live.rs`, `FreshestRound`).
 */
module Freshest {
  import opened Primitives
  import opened Rounds
  import opened Sorting
  import opened RoundCluster

  const FRESHEST_TIP_SLACK: u32 := MAX_ACTIVE_ROUND_JUMP

  // What the table holds per feeding stream; `at` is the time of the last rise.
  datatype Stream = Stream(peer: string, round: u32, at: Time)

  type Streams = map<nat, Stream>

  predicate Counts(s: Stream, tip: u32, maxAge: nat, now: Time) {
    Elapsed(now, s.at) <= maxAge && s.round <= SatAdd(tip, FRESHEST_TIP_SLACK)
  }

  // Two peers vouch for round `x`, each with a counted stream.
  ghost predicate TwoReach(ss: Streams, tip: u32, maxAge: nat, now: Time, x: int) {
    exists i, j :: i in ss && j in ss && ss[i].peer != ss[j].peer
                   && Counts(ss[i], tip, maxAge, now) && Counts(ss[j], tip, maxAge, now)
                   && ss[i].round >= x && ss[j].round >= x
  }

  // The reference `r`: the largest round that two peers vouch for, if the tip is known and any is.
  ghost predicate IsReference(ss: Streams, tip: u32, maxAge: nat, now: Time, r: Option<u32>) {
    if tip == 0 then r == None
    else if r.None? then !TwoReach(ss, tip, maxAge, now, 0)
    else TwoReach(ss, tip, maxAge, now, r.value) && forall x | x > r.value :: !TwoReach(ss, tip, maxAge, now, x)
  }

  // ---- the table ----

  class FreshestRound {
    var streams: Streams
    var nextId: nat
    var netTip: u32
    const lagRounds: u32
    const grace: nat
    const stale: nat

    constructor (lagRounds: u32, grace: nat, stale: nat, netTip: u32)
      ensures streams == map[] && nextId == 0 && this.netTip == netTip
      ensures this.lagRounds == lagRounds && this.grace == grace && this.stale == stale
    {
      streams, nextId, this.netTip := map[], 0, netTip;
      this.lagRounds, this.grace, this.stale := lagRounds, grace, stale;
    }

    method Feed() returns (id: nat)
      modifies `nextId
      ensures id == old(nextId) && nextId == id + 1
    {
      id := nextId;
      nextId := nextId + 1;
    }

    method Offer(id: nat, peer: string, round: u32, now: Time)
      modifies `streams
      ensures streams == Offered(old(streams), netTip, stale, id, peer, round, now)
    {
      if netTip == 0 || round > SatAdd(netTip, FRESHEST_TIP_SLACK) {
        return;
      }
      var kept := map i | i in streams && Elapsed(now, streams[i].at) <= stale :: streams[i];
      var e := if id in kept then kept[id] else Stream(peer, round, now);
      if round > e.round {
        e := e.(round := round, at := now);
      }
      streams := kept[id := e];
    }

    method End(id: nat)
      modifies `streams
      ensures streams == old(streams) - {id}
    {
      streams := streams - {id};
    }

    // The per-peer bests of the counted streams, in any order, and the second highest of them.
    method GetWithin(maxAge: nat, now: Time) returns (r: Option<u32>)
      ensures IsReference(streams, netTip, maxAge, now, r)
    {
      if netTip == 0 {
        return None;
      }
      var best := PerPeer(streams, netTip, maxAge, now);
      r := SecondHighest(best);
      BestsAreReference(streams, netTip, maxAge, now, best, r);
    }

    method Get(now: Time) returns (r: Option<u32>)
      ensures IsReference(streams, netTip, stale, now, r)
    {
      r := GetWithin(stale, now);
    }

    // Where a peer being selected has to start from, at least.
    method SelectFloor(now: Time) returns (floor: u32)
      ensures exists r :: IsReference(streams, netTip, SatSub(stale, grace), now, r) && floor == FloorOf(r, lagRounds)
    {
      var r := GetWithin(SatSub(stale, grace), now);
      return FloorOf(r, lagRounds);
    }
  }

  function FloorOf(r: Option<u32>, lagRounds: u32): u32 {
    if r.None? then 0 else SatSub(r.value, lagRounds)
  }

  // The streams after a round is offered: refused above the ceiling, else stale ones go and the
  // stream's own entry rises to it.
  function Offered(ss: Streams, tip: u32, stale: nat, id: nat, peer: string, round: u32, now: Time): Streams {
    if tip == 0 || round > SatAdd(tip, FRESHEST_TIP_SLACK) then ss
    else
      var kept := map i | i in ss && Elapsed(now, ss[i].at) <= stale :: ss[i];
      var e := if id in kept then kept[id] else Stream(peer, round, now);
      kept[id := if round > e.round then e.(round := round, at := now) else e]
  }

  // ---- the reference is the second highest per-peer best ----

  // `best` holds, for exactly the peers with a stream among `seen` that counts, the highest such round.
  ghost predicate Bests(ss: Streams, tip: u32, maxAge: nat, now: Time, seen: set<nat>, best: map<string, u32>) {
    && (forall i | i in seen && i in ss && Counts(ss[i], tip, maxAge, now) ::
          ss[i].peer in best && ss[i].round <= best[ss[i].peer])
    && (forall p | p in best ::
          exists i :: i in seen && i in ss && Counts(ss[i], tip, maxAge, now) && ss[i].peer == p && ss[i].round == best[p])
  }

  method PerPeer(ss: Streams, tip: u32, maxAge: nat, now: Time) returns (best: map<string, u32>)
    ensures Bests(ss, tip, maxAge, now, ss.Keys, best)
  {
    best := map[];
    var todo := ss.Keys;
    while todo != {}
      invariant todo <= ss.Keys
      invariant Bests(ss, tip, maxAge, now, ss.Keys - todo, best)
      decreases todo
    {
      var i :| i in todo;
      ghost var seen, was := ss.Keys - todo, best;
      todo := todo - {i};
      assert ss.Keys - todo == seen + {i};
      if Counts(ss[i], tip, maxAge, now) {
        var b := if ss[i].peer in best then best[ss[i].peer] else 0;
        best := best[ss[i].peer := if ss[i].round >= b then ss[i].round else b];
      }
      BestsOneMore(ss, tip, maxAge, now, seen, was, i);
    }
    assert ss.Keys - todo == ss.Keys;
  }

  function BestWith(ss: Streams, tip: u32, maxAge: nat, now: Time, best: map<string, u32>, i: nat): map<string, u32>
    requires i in ss
  {
    if !Counts(ss[i], tip, maxAge, now) then best
    else
      var b := if ss[i].peer in best then best[ss[i].peer] else 0;
      best[ss[i].peer := if ss[i].round >= b then ss[i].round else b]
  }

  lemma BestsOneMore(ss: Streams, tip: u32, maxAge: nat, now: Time, seen: set<nat>, best: map<string, u32>, i: nat)
    requires Bests(ss, tip, maxAge, now, seen, best) && i in ss
    ensures Bests(ss, tip, maxAge, now, seen + {i}, BestWith(ss, tip, maxAge, now, best, i))
  {
    var best' := BestWith(ss, tip, maxAge, now, best, i);
    forall p | p in best'
      ensures exists k :: k in seen + {i} && k in ss && Counts(ss[k], tip, maxAge, now) && ss[k].peer == p && ss[k].round == best'[p]
    {
      if p in best && best'[p] == best[p] {
        var k :| k in seen && k in ss && Counts(ss[k], tip, maxAge, now) && ss[k].peer == p && ss[k].round == best[p];
        assert k in seen + {i};
      } else {
        assert i in seen + {i};
      }
    }
  }

  // The values of a map, by key, in any order.
  method ValuesOf(best: map<string, u32>) returns (keys: seq<string>, values: seq<u32>)
    ensures |keys| == |values| && NoDuplicates(keys)
    ensures (forall p :: p in best <==> p in keys) && forall k | 0 <= k < |keys| :: values[k] == best[keys[k]]
  {
    keys, values := [], [];
    var todo := best.Keys;
    while todo != {}
      invariant todo <= best.Keys && |keys| == |values| && NoDuplicates(keys)
      invariant forall p :: p in keys <==> p in best && p !in todo
      invariant forall k | 0 <= k < |keys| :: keys[k] in best && values[k] == best[keys[k]]
      decreases todo
    {
      var p :| p in todo;
      todo := todo - {p};
      keys, values := keys + [p], values + [best[p]];
    }
  }

  // The second highest value of the map; None with fewer than two entries.
  method SecondHighest(best: map<string, u32>) returns (r: Option<u32>)
    ensures IsSecond(best, r)
  {
    var keys, values := ValuesOf(best);
    SortSorted(values);
    var sorted := Sort(values);
    if |sorted| < 2 {
      return None;
    }
    SortElement(values, |sorted| - 2);
    r := Some(sorted[|sorted| - 2]);
    SecondByCount(values, r.value);
    SecondIs(best, keys, values, r.value);
  }

  lemma SecondIs(best: map<string, u32>, keys: seq<string>, values: seq<u32>, x: u32)
    requires |keys| == |values| && NoDuplicates(keys) && (forall p :: p in best <==> p in keys)
    requires forall k | 0 <= k < |keys| :: keys[k] in best && values[k] == best[keys[k]]
    requires CountIn(values, x, U32_MAX) >= 2 && CountIn(values, x + 1, U32_MAX) <= 1
    ensures IsSecond(best, Some(x))
  {
    var i, j := TwoIn(values, x, U32_MAX);
    assert keys[i] != keys[j] && keys[i] in best && keys[j] in best;
    forall p, q | p in best && q in best && p != q ensures best[p] <= x || best[q] <= x {
      var y :| 0 <= y < |keys| && keys[y] == p;
      var z :| 0 <= z < |keys| && keys[z] == q;
      NotBothAbove(values, x, y, z);
    }
  }

  lemma NotBothAbove(values: seq<u32>, x: u32, y: nat, z: nat)
    requires y < |values| && z < |values| && y != z && CountIn(values, x + 1, U32_MAX) <= 1
    ensures values[y] <= x || values[z] <= x
  {
    if values[y] > x && values[z] > x {
      CountsPair(values, x + 1, U32_MAX, Min(y, z), Max(y, z));
    }
  }

  // Two keys reach it, and no two keys exceed it.
  ghost predicate IsSecond(best: map<string, u32>, r: Option<u32>) {
    if r.None? then forall p, q | p in best && q in best :: p == q
    else
      && (exists p, q :: p in best && q in best && p != q && best[p] >= r.value && best[q] >= r.value)
      && forall p, q | p in best && q in best && p != q :: best[p] <= r.value || best[q] <= r.value
  }

  lemma BestsAreReference(ss: Streams, tip: u32, maxAge: nat, now: Time, best: map<string, u32>, r: Option<u32>)
    requires tip != 0 && Bests(ss, tip, maxAge, now, ss.Keys, best) && IsSecond(best, r)
    ensures IsReference(ss, tip, maxAge, now, r)
  {
    forall x | TwoReach(ss, tip, maxAge, now, x) ensures r.Some? && x <= r.value {
      NoneExceeds(ss, tip, maxAge, now, best, r, x);
    }
    if r.Some? {
      TwoReachSecond(ss, tip, maxAge, now, best, r.value);
    }
  }

  lemma NoneExceeds(ss: Streams, tip: u32, maxAge: nat, now: Time, best: map<string, u32>, r: Option<u32>, x: int)
    requires Bests(ss, tip, maxAge, now, ss.Keys, best) && IsSecond(best, r) && TwoReach(ss, tip, maxAge, now, x)
    ensures r.Some? && x <= r.value
  {
    var i, j :| i in ss && j in ss && ss[i].peer != ss[j].peer
                && Counts(ss[i], tip, maxAge, now) && Counts(ss[j], tip, maxAge, now)
                && ss[i].round >= x && ss[j].round >= x;
    assert ss[i].peer in best && ss[j].peer in best;
  }

  lemma TwoReachSecond(ss: Streams, tip: u32, maxAge: nat, now: Time, best: map<string, u32>, x: u32)
    requires Bests(ss, tip, maxAge, now, ss.Keys, best) && IsSecond(best, Some(x))
    ensures TwoReach(ss, tip, maxAge, now, x)
  {
    var p, q :| p in best && q in best && p != q && best[p] >= x && best[q] >= x;
    var i :| i in ss && Counts(ss[i], tip, maxAge, now) && ss[i].peer == p && ss[i].round == best[p];
    var j :| j in ss && Counts(ss[j], tip, maxAge, now) && ss[j].peer == q && ss[j].round == best[q];
  }

  // ---- counting ----

  lemma {:induction false} TwoIn(s: seq<int>, a: int, b: int) returns (i: nat, j: nat)
    requires CountIn(s, a, b) >= 2
    ensures i < j < |s| && a <= s[i] <= b && a <= s[j] <= b
  {
    if a <= s[0] <= b {
      i := 0;
      j := OneIn(s[1..], a, b);
      j := j + 1;
    } else {
      i, j := TwoIn(s[1..], a, b);
      i, j := i + 1, j + 1;
    }
  }

  lemma {:induction false} OneIn(s: seq<int>, a: int, b: int) returns (i: nat)
    requires CountIn(s, a, b) >= 1
    ensures i < |s| && a <= s[i] <= b
  {
    if a <= s[0] <= b {
      i := 0;
    } else {
      i := OneIn(s[1..], a, b);
      i := i + 1;
    }
  }

  lemma {:induction false} CountsOne(s: seq<int>, a: int, b: int, i: nat)
    requires i < |s| && a <= s[i] <= b
    ensures CountIn(s, a, b) >= 1
  {
    if i > 0 {
      CountsOne(s[1..], a, b, i - 1);
    }
  }

  lemma {:induction false} CountsPair(s: seq<int>, a: int, b: int, i: nat, j: nat)
    requires i < j < |s| && a <= s[i] <= b && a <= s[j] <= b
    ensures CountIn(s, a, b) >= 2
  {
    if i > 0 {
      CountsPair(s[1..], a, b, i - 1, j - 1);
    } else {
      CountsOne(s[1..], a, b, j - 1);
    }
  }

  // The last but one of the sorted values: at least two values reach it, at most one exceeds it.
  lemma {:induction false} SecondByCount(values: seq<int>, x: int)
    requires |Sort(values)| >= 2 && x == Sort(values)[|Sort(values)| - 2]
    requires forall i | 0 <= i < |values| :: values[i] <= U32_MAX
    ensures CountIn(values, x, U32_MAX) >= 2 && CountIn(values, x + 1, U32_MAX) <= 1
  {
    var s := Sort(values);
    SortSorted(values);
    CountSort(values, x, U32_MAX);
    CountSort(values, x + 1, U32_MAX);
    SortElement(values, |s| - 1);
    CountsPair(s, x, U32_MAX, |s| - 2, |s| - 1);
    OneAbove(s, x, U32_MAX);
  }

  lemma {:induction false} OneAbove(s: seq<int>, x: int, b: int)
    requires Sorted(s) && |s| >= 2 && x == s[|s| - 2]
    ensures CountIn(s, x + 1, b) <= 1
  {
    if CountIn(s, x + 1, b) >= 2 {
      var i, j := TwoIn(s, x + 1, b);
      assert false;
    }
  }
}
