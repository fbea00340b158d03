/**
 One upstream of a failover session (`src/failover/core.rs`, `Upstream`): the bounded buffer of
 blocks it delivered ahead of the node, how its blocks compared with the forwarded ones, and its
 lead over the active.

 `UpstreamState` is what an upstream stands for and carries the specification of each operation.
 `Upstream` adds the running byte count the source keeps beside the buffer, and performs the
 operations with the source's loops: the core's map owns its upstreams by value, so each operation
 takes an upstream and gives back the updated one.
 */
module FailoverUpstream {
  import opened Primitives
  import Sorting

  const MIN_VERIFIED: nat := 3
  const MAX_MISMATCHES: nat := 3
  const LEAD_WINDOW: nat := 40
  const LEAD_MIN_SAMPLES: nat := 20
  const AHEAD_KEEP: nat := 512
  const AHEAD_BYTES: nat := 0x200_0000

  // The keyed hash of a block's decompressed content: an abstract 64-bit value.
  type Hash = nat

  type Frame = seq<byte>

  // A buffered block; its round is the key it is stored under.
  datatype Ahead = Ahead(parent: u32, hash: Hash, at: Time, frame: Frame)

  type Buffer = map<u32, Ahead>

  function Bytes(m: Buffer): nat
    decreases |m|
  {
    if m == map[] then 0
    else
      var r := MaxKey(m);
      assert r !in (m - {r}).Keys && m.Keys == (m - {r}).Keys + {r};
      |m[r].frame| + Bytes(m - {r})
  }

  lemma {:induction false} BytesWithout(m: Buffer, r: u32)
    requires r in m
    ensures Bytes(m) == |m[r].frame| + Bytes(m - {r})
    decreases |m|
  {
    var top := MaxKey(m);
    if top != r {
      var a, b := m - {top}, m - {r};
      assert m.Keys == a.Keys + {top};
      BytesWithout(a, r);
      assert top in b;
      assert MaxKey(b) == top;
      assert a - {r} == b - {top};
    }
  }

  lemma {:induction false} BytesWith(m: Buffer, r: u32, a: Ahead)
    ensures Bytes(m[r := a]) == Bytes(m) + |a.frame| - (if r in m then |m[r].frame| else 0)
  {
    BytesWithout(m[r := a], r);
    if r in m {
      BytesWithout(m, r);
      assert m[r := a] - {r} == m - {r};
    } else {
      assert m[r := a] - {r} == m;
    }
  }

  // ---- the bounded buffer ----

  predicate Fits(m: Buffer) {
    |m| <= AHEAD_KEEP && Bytes(m) <= AHEAD_BYTES
  }

  // `p` holds the lowest rounds of `m`, with their blocks.
  ghost predicate IsLowerPart(p: Buffer, m: Buffer) {
    && p.Keys <= m.Keys
    && (forall r | r in p :: p[r] == m[r])
    && (forall r, d | r in p && d in m && d !in p :: r < d)
  }

  // The buffer after its highest rounds are discarded until both limits hold.
  function KeepLowest(m: Buffer): (kept: Buffer)
    decreases |m|
  {
    if Fits(m) then m
    else
      var top := MaxKey(m);
      assert m.Keys == (m - {top}).Keys + {top};
      KeepLowest(m - {top})
  }

  lemma {:induction false} KeepLowestFits(m: Buffer)
    ensures Fits(KeepLowest(m))
    decreases |m|
  {
    if !Fits(m) {
      assert m.Keys == (m - {MaxKey(m)}).Keys + {MaxKey(m)};
      KeepLowestFits(m - {MaxKey(m)});
    }
  }

  lemma {:induction false} KeepLowestIsLower(m: Buffer)
    ensures IsLowerPart(KeepLowest(m), m)
    ensures KeepLowest(m) != m ==> m != map[] && MaxKey(m) !in KeepLowest(m)
    decreases |m|
  {
    if !Fits(m) {
      var rest := m - {MaxKey(m)};
      assert m.Keys == rest.Keys + {MaxKey(m)};
      KeepLowestIsLower(rest);
    }
  }

  // No more is discarded than the limits ask for: any fitting lower part is within the kept one.
  lemma {:induction false} KeepLowestIsWidest(m: Buffer, p: Buffer)
    requires IsLowerPart(p, m) && Fits(p)
    ensures p.Keys <= KeepLowest(m).Keys
    decreases |m|
  {
    if !Fits(m) {
      var top := MaxKey(m);
      assert m.Keys == (m - {top}).Keys + {top};
      if top in p {
        LowerPartWithTop(p, m);
        assert false;
      }
      KeepLowestIsWidest(m - {top}, p);
    }
  }

  lemma LowerPartWithTop(p: Buffer, m: Buffer)
    requires IsLowerPart(p, m) && m != map[] && MaxKey(m) in p
    ensures p == m
  {
    assert p.Keys == m.Keys;
  }

  // ---- the chain a switch replays ----

  // From `cur`: the lowest buffered round above, if its parent is `cur`, and so on from there.
  function Chain(m: Buffer, cur: u32): (c: seq<u32>)
    ensures forall r | r in c :: r in m
    decreases |m|
  {
    var next := From(m, SatAdd(cur, 1));
    if next == map[] then []
    else
      var r := MinKey(next);
      if m[r].parent != cur then []
      else
        assert m.Keys == (m - {r}).Keys + {r};
        [r] + Chain(m - {r}, r)
  }

  // The blocks of a chain, with their rounds.
  function Blocks(m: Buffer, c: seq<u32>): (blocks: seq<(u32, Ahead)>)
    requires forall r | r in c :: r in m
  {
    seq(|c|, i requires 0 <= i < |c| => (c[i], m[c[i]]))
  }

  // What a chain that continues starts with.
  lemma {:induction false} ChainHead(m: Buffer, cur: u32)
    requires Chain(m, cur) != [] && forall k | k in m :: k > cur
    ensures var r := Chain(m, cur)[0];
            && r in m && r == MinKey(m) && m[r].parent == cur
            && Chain(m, cur) == [r] + Chain(m - {r}, r)
            && |m - {r}| < |m|
            && forall k | k in m - {r} :: k > r
  {
    AllFrom(m, SatAdd(cur, 1));
    assert m.Keys == (m - {MinKey(m)}).Keys + {MinKey(m)};
  }

  // The chain climbs strictly...
  lemma {:induction false} ChainClimbs(m: Buffer, cur: u32)
    requires forall k | k in m :: k > cur
    ensures StrictlyIncreasing([cur] + Chain(m, cur))
    decreases |m|
  {
    if Chain(m, cur) != [] {
      ChainHead(m, cur);
      var r := Chain(m, cur)[0];
      ChainClimbs(m - {r}, r);
      assert [cur] + Chain(m, cur) == [cur] + ([r] + Chain(m - {r}, r));
    }
  }

  // ...and each of its blocks names the round before it as its parent.
  lemma {:induction false} ChainParents(m: Buffer, cur: u32)
    requires forall k | k in m :: k > cur
    ensures forall i | 0 <= i < |Chain(m, cur)| :: m[Chain(m, cur)[i]].parent == ([cur] + Chain(m, cur))[i]
    decreases |m|
  {
    var c := Chain(m, cur);
    if c != [] {
      ChainHead(m, cur);
      var rest := m - {c[0]};
      ChainParents(rest, c[0]);
      forall i | 0 <= i < |c| ensures m[c[i]].parent == ([cur] + c)[i] {
        if i > 0 {
          assert c[i] == Chain(rest, c[0])[i - 1];
          assert ([c[0]] + Chain(rest, c[0]))[i - 1] == c[i - 1];
        }
      }
    }
  }

  // ---- the value of an upstream ----

  datatype UpstreamState = UpstreamState(
    ip: string,
    verified: nat,
    mismatches: nat,
    ahead: Buffer,
    droppedMax: u32,
    leads: seq<int>,
    lastRx: Option<Time>,
    preferred: bool)
  {
    predicate Valid() {
      Fits(ahead) && |leads| <= LEAD_WINDOW
    }

    function PushLead(ms: int): UpstreamState {
      var kept := if |leads| == LEAD_WINDOW then leads[1..] else leads;
      this.(leads := kept + [ms])
    }

    function Compared(matched: bool, leadMs: int): UpstreamState {
      if matched then this.(verified := verified + 1, mismatches := 0).PushLead(leadMs)
      else this.(verified := 0, mismatches := mismatches + 1)
    }

    // The verdict of that comparison: drop the standby.
    predicate Rejects(matched: bool) {
      !matched && mismatches + 1 >= MAX_MISMATCHES
    }

    function Inserted(round: u32, a: Ahead): UpstreamState {
      var full := ahead[round := a];
      var kept := KeepLowest(full);
      this.(ahead := kept,
            droppedMax := if kept == full then droppedMax else Max(droppedMax, MaxKey(full)))
    }

    function Without(round: u32): UpstreamState {
      this.(ahead := ahead - {round})
    }

    function Trimmed(floor: u32): UpstreamState {
      this.(ahead := Above(ahead, floor))
    }

    // A round the node got is compared with this upstream's block for it, if buffered; then the buffer
    // is trimmed.
    function Settled(round: u32, hash: Hash, at: Time, floor: u32): UpstreamState {
      var compared :=
        if round in ahead
        then Without(round).Compared(ahead[round].hash == hash, Elapsed(at, ahead[round].at))
        else this;
      compared.Trimmed(floor)
    }

    // That comparison drops the standby.
    predicate SettleRejects(round: u32, hash: Hash) {
      round in ahead && Rejects(ahead[round].hash == hash)
    }

    function WithoutChain(c: seq<u32>): UpstreamState {
      this.(ahead := ahead - set r | r in c)
    }

    function MedianLead(): Option<int> {
      if |leads| < LEAD_MIN_SAMPLES then None
      else Sorting.SortSorted(leads); Some(Sorting.Sort(leads)[|leads| / 2])
    }

    predicate CanContinue(from: u32) {
      droppedMax <= from
    }

    function ReplayableChain(from: u32): (c: seq<u32>)
      ensures forall r | r in c :: r in ahead
    {
      if CanContinue(from) then Chain(ahead, from) else []
    }

    // How many blocks the upstream can hand over, and when the first of them arrived.
    function ChainLen(from: u32): (nat, Option<Time>) {
      var c := ReplayableChain(from);
      (|c|, if c == [] then None else assert c[0] in c; Some(ahead[c[0]].at))
    }
  }

  function NewUpstream(ip: string): UpstreamState {
    UpstreamState(ip, 0, 0, map[], 0, [], None, false)
  }

  // A part of a buffer that fits also fits.
  lemma {:induction false} PartFits(p: Buffer, m: Buffer)
    requires p.Keys <= m.Keys && forall r | r in p :: p[r] == m[r]
    ensures Bytes(p) <= Bytes(m) && |p| <= |m|
    ensures Fits(m) ==> Fits(p)
    decreases |m|
  {
    if r :| r in m && r !in p {
      BytesWithout(m, r);
      assert m.Keys == (m - {r}).Keys + {r};
      PartFits(p, m - {r});
    } else {
      assert p.Keys == m.Keys;
      assert p == m;
    }
  }

  // Every operation keeps both buffer limits in force.
  lemma {:induction false} OperationsKeepValid(u: UpstreamState, matched: bool, ms: int, round: u32, a: Ahead)
    requires u.Valid()
    ensures u.Compared(matched, ms).Valid()
    ensures u.Inserted(round, a).Valid()
    ensures u.Without(round).Valid()
    ensures u.Trimmed(round).Valid()
  {
    PartFits(Above(u.ahead, round), u.ahead);
    PartFits(u.ahead - {round}, u.ahead);
    KeepLowestFits(u.ahead[round := a]);
  }

  // ---- the upstream itself ----

  datatype Upstream = Upstream(state: UpstreamState, aheadBytes: nat) {

    // The running byte count is the summed length of the buffered frames.
    predicate Valid() {
      state.Valid() && aheadBytes == Bytes(state.ahead)
    }

    method Compared(matched: bool, leadMs: int) returns (u: Upstream, drop: bool)
      requires Valid()
      ensures u.Valid() && u.state == state.Compared(matched, leadMs)
      ensures drop == state.Rejects(matched)
    {
      var s := state;
      if matched {
        s := s.(verified := s.verified + 1, mismatches := 0);
        if |s.leads| == LEAD_WINDOW {
          s := s.(leads := s.leads[1..]);
        }
        s := s.(leads := s.leads + [leadMs]);
        drop := false;
      } else {
        s := s.(verified := 0, mismatches := s.mismatches + 1);
        drop := s.mismatches >= MAX_MISMATCHES;
      }
      u := Upstream(s, aheadBytes);
    }

    method InsertAhead(round: u32, a: Ahead) returns (u: Upstream)
      requires Valid()
      ensures u.Valid() && u.state == state.Inserted(round, a)
    {
      BytesWith(state.ahead, round, a);
      var bytes: int := aheadBytes + |a.frame|;
      if round in state.ahead {
        bytes := bytes - |state.ahead[round].frame|;
      }
      var full := state.ahead[round := a];
      var kept, keptBytes, dropped := DiscardHighest(full, bytes, state.droppedMax);
      KeepLowestFits(full);
      u := Upstream(state.(ahead := kept, droppedMax := dropped), keptBytes);
    }

    method TakeAhead(round: u32) returns (u: Upstream, taken: Option<Ahead>)
      requires Valid()
      ensures u.Valid() && u.state == state.Without(round)
      ensures taken == if round in state.ahead then Some(state.ahead[round]) else None
    {
      if round !in state.ahead {
        assert state.ahead - {round} == state.ahead;
        return this, None;
      }
      PartFits(state.ahead - {round}, state.ahead);
      BytesWithout(state.ahead, round);
      taken := Some(state.ahead[round]);
      u := Upstream(state.(ahead := state.ahead - {round}), aheadBytes - |state.ahead[round].frame|);
    }

    method TrimAhead(floor: u32) returns (u: Upstream)
      requires Valid()
      ensures u.Valid() && u.state == state.Trimmed(floor)
    {
      PartFits(Above(state.ahead, floor), state.ahead);
      var m, bytes := state.ahead, aheadBytes;
      while m != map[] && MinKey(m) <= floor
        invariant bytes == Bytes(m)
        invariant Above(m, floor) == Above(state.ahead, floor)
        decreases |m|
      {
        var r := MinKey(m);
        LowDiscarded(m, r, floor);
        bytes := bytes - |m[r].frame|;
        m := m - {r};
      }
      NothingBelow(m, floor);
      u := Upstream(state.(ahead := m), bytes);
    }

    // One standby's share of settling a forwarded round.
    method Settle(round: u32, hash: Hash, at: Time, floor: u32) returns (u: Upstream, rejected: bool)
      requires Valid()
      ensures u.Valid() && u.state == state.Settled(round, hash, at, floor)
      ensures rejected == state.SettleRejects(round, hash)
    {
      rejected := false;
      var taken;
      u, taken := TakeAhead(round);
      if taken.Some? {
        u, rejected := u.Compared(taken.value.hash == hash, Elapsed(at, taken.value.at));
      } else {
        assert state.ahead - {round} == state.ahead;
      }
      u := u.TrimAhead(floor);
    }

    // Take the blocks continuing the node's chain from `from` out of the buffer.
    method TakeChain(from: u32) returns (u: Upstream, chain: seq<(u32, Ahead)>)
      requires Valid()
      ensures u.Valid() && u.state == state.WithoutChain(Chain(state.ahead, from))
      ensures chain == Blocks(state.ahead, Chain(state.ahead, from))
    {
      var cur := from;
      u, chain := this, [];
      ghost var c: seq<u32> := [];
      TakenNone(state.ahead, from);
      while true
        invariant u.Valid() && u.state == state.(ahead := u.state.ahead)
        invariant Taken(state.ahead, from, c, u.state.ahead, cur)
        invariant chain == Blocks(state.ahead, c)
        decreases |u.state.ahead|
      {
        var next := From(u.state.ahead, SatAdd(cur, 1));
        if next == map[] {
          break;
        }
        var r := MinKey(next);
        if u.state.ahead[r].parent != cur {
          break;
        }
        TakenMore(state.ahead, from, c, u.state.ahead, cur);
        var a;
        u, a := u.TakeAhead(r);
        chain := chain + [(r, a.value)];
        c := c + [r];
        cur := r;
      }
      assert Chain(state.ahead, from) == c;
    }

    method ChainLen(from: u32) returns (n: nat, firstAt: Option<Time>)
      ensures (n, firstAt) == state.ChainLen(from)
    {
      if state.droppedMax > from {
        return 0, None;
      }
      n, firstAt := FollowChain(state.ahead, from);
    }
  }

  // The trimming loop of an insertion.
  method DiscardHighest(full: Buffer, fullBytes: nat, droppedMax: u32)
    returns (m: Buffer, bytes: nat, dropped: u32)
    requires fullBytes == Bytes(full)
    ensures m == KeepLowest(full) && bytes == Bytes(m)
    ensures dropped == if m == full then droppedMax else Max(droppedMax, MaxKey(full))
  {
    m, bytes, dropped := full, fullBytes, droppedMax;
    while |m| > AHEAD_KEEP || bytes > AHEAD_BYTES
      invariant bytes == Bytes(m)
      invariant KeepLowest(m) == KeepLowest(full)
      invariant m.Keys <= full.Keys && (m == full || MaxKey(full) !in m)
      invariant dropped == if m == full then droppedMax else Max(droppedMax, MaxKey(full))
      decreases |m|
    {
      var r := MaxKey(m);
      TopDiscarded(m);
      bytes := bytes - |m[r].frame|;
      m := m - {r};
      dropped := if dropped >= r then dropped else r;
    }
  }

  lemma {:induction false} LowDiscarded(m: Buffer, r: u32, floor: u32)
    requires r in m && r <= floor
    ensures |m - {r}| < |m|
    ensures Above(m - {r}, floor) == Above(m, floor)
    ensures Bytes(m) == |m[r].frame| + Bytes(m - {r})
  {
    BytesWithout(m, r);
    assert m.Keys == (m - {r}).Keys + {r};
  }

  lemma NothingBelow(m: Buffer, floor: u32)
    requires m == map[] || MinKey(m) > floor
    ensures Above(m, floor) == m
  {
  }

  lemma {:induction false} TopDiscarded(m: Buffer)
    requires !Fits(m)
    ensures m != map[]
    ensures var top := MaxKey(m);
            && |m - {top}| < |m|
            && KeepLowest(m) == KeepLowest(m - {top})
            && Bytes(m) == |m[top].frame| + Bytes(m - {top})
  {
    var top := MaxKey(m);
    assert m.Keys == (m - {top}).Keys + {top};
  }

  // `m` is `whole` without the first links `c` of its chain from `from`; the chain goes on from `cur`.
  ghost predicate Taken(whole: Buffer, from: u32, c: seq<u32>, m: Buffer, cur: u32) {
    && (forall r | r in c :: r in whole)
    && m == whole - (set r | r in c)
    && Chain(whole, from) == c + Chain(m, cur)
  }

  lemma TakenNone(whole: Buffer, from: u32)
    ensures Taken(whole, from, [], whole, from)
  {
    assert (set r: u32 | r in []) == {};
    assert whole - {} == whole;
  }

  lemma TakenMore(whole: Buffer, from: u32, c: seq<u32>, m: Buffer, cur: u32)
    requires Taken(whole, from, c, m, cur)
    requires From(m, SatAdd(cur, 1)) != map[] && m[MinKey(From(m, SatAdd(cur, 1)))].parent == cur
    ensures var r := MinKey(From(m, SatAdd(cur, 1)));
            && Taken(whole, from, c + [r], m - {r}, r)
            && Blocks(whole, c + [r]) == Blocks(whole, c) + [(r, m[r])]
            && |m - {r}| < |m|
  {
    var r := MinKey(From(m, SatAdd(cur, 1)));
    assert m.Keys == (m - {r}).Keys + {r};
    WithoutOneMore(whole, c, r);
    ChainOneMore(c, r, Chain(m - {r}, r));
    assert Chain(m, cur) == [r] + Chain(m - {r}, r);
    BlocksOneMore(whole, c, r);
  }

  lemma ChainOneMore(c: seq<u32>, r: u32, rest: seq<u32>)
    ensures c + ([r] + rest) == (c + [r]) + rest
  {
  }

  lemma BlocksOneMore(m: Buffer, c: seq<u32>, r: u32)
    requires (forall x | x in c :: x in m) && r in m
    ensures Blocks(m, c + [r]) == Blocks(m, c) + [(r, m[r])]
  {
  }

  lemma WithoutOneMore(whole: Buffer, c: seq<u32>, r: u32)
    ensures (whole - set x | x in c) - {r} == whole - set x | x in c + [r]
  {
    assert (set x | x in c + [r]) == (set x | x in c) + {r};
  }

  // The walk along a buffer's parent links, in round order from just above `from`.
  method FollowChain(m: Buffer, from: u32) returns (n: nat, firstAt: Option<Time>)
    ensures n == |Chain(m, from)|
    ensures firstAt == if n == 0 then None else Some(m[Chain(m, from)[0]].at)
  {
    var cur := from;
    n, firstAt := 0, None;
    var rest := From(m, SatAdd(from, 1));
    ChainReadsOnlyAbove(m, from);
    while rest != map[]
      invariant From(rest, SatAdd(cur, 1)) == rest
      invariant forall r | r in rest :: r in m && rest[r] == m[r]
      invariant n + |Chain(rest, cur)| == |Chain(m, from)|
      invariant n == 0 ==> Chain(rest, cur) == Chain(m, from) && firstAt == None
      invariant n > 0 ==> firstAt == Some(m[Chain(m, from)[0]].at)
      decreases |rest|
    {
      var r := MinKey(rest);
      if rest[r].parent != cur {
        break;
      }
      ChainStep(rest, cur);
      if firstAt.None? {
        firstAt := Some(rest[r].at);
      }
      cur := r;
      n := n + 1;
      rest := rest - {r};
    }
  }

  // One link of a chain whose candidates are all above it.
  lemma {:induction false} ChainStep(m: Buffer, cur: u32)
    requires m != map[] && From(m, SatAdd(cur, 1)) == m && m[MinKey(m)].parent == cur
    ensures Chain(m, cur) == [MinKey(m)] + Chain(m - {MinKey(m)}, MinKey(m))
    ensures |m - {MinKey(m)}| < |m|
    ensures From(m - {MinKey(m)}, SatAdd(MinKey(m), 1)) == m - {MinKey(m)}
  {
    assert m.Keys == (m - {MinKey(m)}).Keys + {MinKey(m)};
    AllFrom(m - {MinKey(m)}, SatAdd(MinKey(m), 1));
  }

  lemma AllFrom(m: Buffer, lo: u32)
    requires forall k | k in m :: k >= lo
    ensures From(m, lo) == m
  {
  }

  // A chain depends only on the entries above its starting round.
  lemma {:induction false} ChainReadsOnlyAbove(m: Buffer, cur: u32)
    ensures Chain(From(m, SatAdd(cur, 1)), cur) == Chain(m, cur)
  {
    ChainAgrees(m, From(m, SatAdd(cur, 1)), cur);
  }

  lemma {:induction false} ChainAgrees(m: Buffer, m': Buffer, cur: u32)
    requires From(m, SatAdd(cur, 1)) == From(m', SatAdd(cur, 1))
    ensures Chain(m, cur) == Chain(m', cur)
    decreases |m|
  {
    var next := From(m, SatAdd(cur, 1));
    if next != map[] {
      var r := MinKey(next);
      assert r in next && r in From(m', SatAdd(cur, 1));
      assert m[r] == next[r] == m'[r];
      if m[r].parent == cur {
        assert m.Keys == (m - {r}).Keys + {r};
        FromAgrees(m, m', cur, r);
        ChainAgrees(m - {r}, m' - {r}, r);
      }
    }
  }

  lemma FromAgrees(m: Buffer, m': Buffer, cur: u32, r: u32)
    requires From(m, SatAdd(cur, 1)) == From(m', SatAdd(cur, 1)) && r >= SatAdd(cur, 1)
    ensures From(m - {r}, SatAdd(r, 1)) == From(m' - {r}, SatAdd(r, 1))
  {
    forall k | k > r ensures (k in m <==> k in m') && (k in m ==> m[k] == m'[k]) {
      assert k in From(m, SatAdd(cur, 1)) <==> k in From(m', SatAdd(cur, 1));
    }
  }
}
