/**
 The decision core of a failover session (`src/failover/core.rs`, `Core`): which blocks go to the
 node, how standbys are checked against them, which standby to switch to, and the switch itself.

 `CoreState` is the value of the core and carries the specification of each operation; the class
 `Core` performs the operations in place. The source keeps upstreams in a hash map whose iteration
 order is arbitrary: the loops here visit them in any order, and results that depend on the order
 are specified by what they have in common.
 */
module FailoverCore {
  import opened Primitives
  import opened FailoverUpstream

  const FORWARDED_KEEP: nat := 1024
  const I64_MIN: int := -0x8000_0000_0000_0000

  type Id = nat

  datatype SwitchReason = Stall | Lag | ActiveDead | Preferred

  datatype Forwarded = Forwarded(hash: Hash, at: Time)

  datatype StandbyVerdict = Ok | Mismatch(round: u32)

  // The forwarded rounds kept for checking slower standbys: the highest ones.
  function KeepHighest(m: map<u32, Forwarded>): map<u32, Forwarded>
    decreases |m|
  {
    if |m| <= FORWARDED_KEEP then m
    else
      var low := MinKey(m);
      assert m.Keys == (m - {low}).Keys + {low};
      KeepHighest(m - {low})
  }

  // True entries, as many as may be kept, and none dropped above one that is kept.
  lemma {:induction false} KeepHighestIsPart(m: map<u32, Forwarded>)
    ensures KeepHighest(m).Keys <= m.Keys
    ensures forall r | r in KeepHighest(m) :: KeepHighest(m)[r] == m[r]
    ensures |KeepHighest(m)| == if |m| <= FORWARDED_KEEP then |m| else FORWARDED_KEEP
    ensures forall r, k | r in m && r !in KeepHighest(m) && k in KeepHighest(m) :: r < k
    decreases |m|
  {
    if |m| > FORWARDED_KEEP {
      var low := MinKey(m);
      assert m.Keys == (m - {low}).Keys + {low};
      KeepHighestIsPart(m - {low});
    }
  }

  function SettledUnlessActive(u: UpstreamState, isActive: bool, round: u32, hash: Hash, at: Time, floor: u32)
    : UpstreamState
  {
    if isActive then u else u.Settled(round, hash, at, floor)
  }

  datatype CoreState = CoreState(
    lastForwarded: u32,
    forwarded: map<u32, Forwarded>,
    active: Id,
    ups: map<Id, UpstreamState>,
    lastSwitch: Option<Time>,
    stall: nat,
    lag: nat,
    minDwell: nat)
  {
    ghost predicate Valid() {
      forall id | id in ups :: ups[id].Valid()
    }

    function With(id: Id, u: UpstreamState): CoreState {
      this.(ups := ups[id := u])
    }

    function Recorded(round: u32, hash: Hash, at: Time): CoreState {
      this.(lastForwarded := round, forwarded := KeepHighest(forwarded[round := Forwarded(hash, at)]))
    }

    function Settled(round: u32, hash: Hash, at: Time): CoreState {
      this.(ups := map id | id in ups ::
              SettledUnlessActive(ups[id], id == active, round, hash, at, lastForwarded))
    }

    // The standbys a settled round drops.
    function Disagreeing(round: u32, hash: Hash): set<Id> {
      set id | id in ups && id != active && ups[id].SettleRejects(round, hash)
    }

    function Forward(round: u32, hash: Hash, at: Time): CoreState {
      Recorded(round, hash, at).Settled(round, hash, at)
    }

    // ---- a block from the active ----

    function Heard(id: Id, at: Time): CoreState {
      if id in ups then With(id, ups[id].(lastRx := Some(at))) else this
    }

    predicate IsNew(round: u32) {
      lastForwarded == 0 || round > lastForwarded
    }

    function OnActiveBlock(round: u32, hash: Hash, at: Time): CoreState {
      if IsNew(round) then Heard(active, at).Forward(round, hash, at) else Heard(active, at)
    }

    // ---- a block from a standby ----

    // What a standby's block does to it: buffered, or compared with the forwarded one if still known.
    function Received(u: UpstreamState, round: u32, a: Ahead): UpstreamState {
      var heard := u.(lastRx := Some(a.at));
      if round > lastForwarded then heard.Inserted(round, a)
      else if round in forwarded then
        heard.Compared(forwarded[round].hash == a.hash, 0 - Elapsed(a.at, forwarded[round].at))
      else heard
    }

    function OnStandbyBlock(id: Id, round: u32, a: Ahead): CoreState {
      if id in ups then With(id, Received(ups[id], round, a)) else this
    }

    predicate Differs(u: UpstreamState, round: u32, hash: Hash) {
      round <= lastForwarded && round in forwarded && u.Rejects(forwarded[round].hash == hash)
    }

    predicate StandbyRejected(id: Id, round: u32, hash: Hash) {
      id in ups && Differs(ups[id], round, hash)
    }

    // ---- picking a standby ----

    predicate Candidate(id: Id) {
      && id in ups
      && id != active
      && ups[id].verified >= MIN_VERIFIED
      && ups[id].ReplayableChain(lastForwarded) != []
    }

    function ChainLength(id: Id): nat
      requires Candidate(id)
    {
      |ups[id].ReplayableChain(lastForwarded)|
    }

    function FirstAt(id: Id): Time
      requires Candidate(id)
    {
      ups[id].ChainLen(lastForwarded).1.value
    }

    function Lead(id: Id): int
      requires id in ups
    {
      var m := ups[id].MedianLead();
      if m.None? then I64_MIN else m.value
    }

    predicate StallCandidate(id: Id, now: Time, activeDead: bool) {
      Candidate(id) && (activeDead || Elapsed(now, FirstAt(id)) >= stall)
    }

    // Faster, else holding more of the chain, else holding it longer.
    predicate RanksAbove(x: Id, y: Id)
      requires Candidate(x) && Candidate(y)
    {
      || Lead(x) > Lead(y)
      || (Lead(x) == Lead(y) && ChainLength(x) > ChainLength(y))
      || (Lead(x) == Lead(y) && ChainLength(x) == ChainLength(y) && FirstAt(x) < FirstAt(y))
    }

    predicate DwellOver(now: Time) {
      lastSwitch.None? || Elapsed(now, lastSwitch.value) >= minDwell
    }

    predicate ActivePreferred() {
      active in ups && ups[active].preferred
    }

    predicate PreferredCandidate(id: Id, now: Time) {
      Candidate(id) && DwellOver(now) && ups[id].preferred && !ActivePreferred()
    }

    predicate LagCandidate(id: Id, now: Time) {
      && Candidate(id)
      && DwellOver(now)
      && (ups[id].preferred || !ActivePreferred())
      && ups[id].MedianLead().Some?
      && ups[id].MedianLead().value >= lag
    }

    ghost predicate BestStall(id: Id, now: Time, activeDead: bool) {
      && StallCandidate(id, now, activeDead)
      && forall x | StallCandidate(x, now, activeDead) :: !RanksAbove(x, id)
    }

    ghost predicate BestPreferred(id: Id, now: Time) {
      && PreferredCandidate(id, now)
      && forall x | PreferredCandidate(x, now) :: Lead(x) <= Lead(id)
    }

    ghost predicate BestLag(id: Id, now: Time) {
      && LagCandidate(id, now)
      && forall x | LagCandidate(x, now) :: Lead(x) <= Lead(id)
    }

    // The picks `pick_switch` can make, over all orders of visiting the upstreams: a stall or dead
    // switch if there is one, else a return to a priority peer, else a lag switch.
    ghost predicate Picks(now: Time, activeDead: bool, pick: Option<(Id, SwitchReason)>) {
      if lastForwarded == 0 then pick == None
      else if exists x :: StallCandidate(x, now, activeDead) then
        && pick.Some?
        && pick.value.1 == (if activeDead then ActiveDead else Stall)
        && BestStall(pick.value.0, now, activeDead)
      else if exists x :: PreferredCandidate(x, now) then
        pick.Some? && pick.value.1 == Preferred && BestPreferred(pick.value.0, now)
      else if exists x :: LagCandidate(x, now) then
        pick.Some? && pick.value.1 == Lag && BestLag(pick.value.0, now)
      else pick == None
    }

    // ---- the switch ----

    predicate CanSwitchTo(id: Id) {
      id in ups && ups[id].ReplayableChain(lastForwarded) != []
    }

    function ReplayBlocks(id: Id): seq<(u32, Ahead)>
      requires id in ups
    {
      Blocks(ups[id].ahead, ups[id].ReplayableChain(lastForwarded))
    }

    // The core at the moment `id` has become the active, its chain taken out, nothing sent yet.
    function TakenOver(id: Id, now: Time): CoreState
      requires id in ups
    {
      With(id, ups[id].WithoutChain(ups[id].ReplayableChain(lastForwarded)))
      .(active := id, lastSwitch := Some(now))
    }

    // ...and after the first `n` of the blocks are sent.
    function Replayed(blocks: seq<(u32, Ahead)>, n: nat): CoreState
      requires n <= |blocks|
    {
      if n == 0 then this
      else
        var (r, a) := blocks[n - 1];
        Replayed(blocks, n - 1).Forward(r, a.hash, a.at)
    }

    // The standbys that settling the `k`th block drops.
    function ReportsAt(blocks: seq<(u32, Ahead)>, k: nat): set<Id>
      requires k < |blocks|
    {
      var (r, a) := blocks[k];
      Replayed(blocks, k).Recorded(r, a.hash, a.at).Disagreeing(r, a.hash)
    }

    // The standbys dropped along a replay, each with the round it was dropped at.
    function ReplayDisagreeing(blocks: seq<(u32, Ahead)>, n: nat): set<(Id, u32)>
      requires n <= |blocks|
    {
      set k, id | 0 <= k < n && id in ReportsAt(blocks, k) :: (id, blocks[k].0)
    }

    function LeadsCleared(): CoreState {
      this.(ups := map id | id in ups :: ups[id].(leads := []))
    }

    function SwitchTo(id: Id, now: Time): CoreState
      requires CanSwitchTo(id)
    {
      TakenOver(id, now).Replayed(ReplayBlocks(id), |ReplayBlocks(id)|).LeadsCleared()
    }
  }

  function NewCore(active: Id, ip: string, lastForwarded: u32, stall: nat, lag: nat, minDwell: nat): CoreState {
    CoreState(lastForwarded, map[], active, map[active := NewUpstream(ip)], None, stall, lag, minDwell)
  }

  // ---- the core itself ----

  ghost function States(ups: map<Id, Upstream>): map<Id, UpstreamState> {
    map id | id in ups :: ups[id].state
  }

  ghost predicate AllValid(ups: map<Id, Upstream>) {
    forall id | id in ups :: ups[id].Valid()
  }

  lemma StatesWith(ups: map<Id, Upstream>, id: Id, u: Upstream)
    requires AllValid(ups) && u.Valid()
    ensures AllValid(ups[id := u])
    ensures States(ups[id := u]) == States(ups)[id := u.state]
  {
  }

  class Core {
    var lastForwarded: u32
    var forwarded: map<u32, Forwarded>
    var active: Id
    var ups: map<Id, Upstream>
    var lastSwitch: Option<Time>
    const stall: nat
    const lag: nat
    const minDwell: nat

    constructor (active: Id, ip: string, lastForwarded: u32, stall: nat, lag: nat, minDwell: nat)
      ensures Valid() && View() == NewCore(active, ip, lastForwarded, stall, lag, minDwell)
    {
      this.lastForwarded, this.active := lastForwarded, active;
      forwarded, lastSwitch := map[], None;
      ups := map[active := Upstream(NewUpstream(ip), 0)];
      this.stall, this.lag, this.minDwell := stall, lag, minDwell;
    }

    ghost predicate Valid()
      reads this
    {
      AllValid(ups)
    }

    ghost function View(): CoreState
      reads this
    {
      CoreState(lastForwarded, forwarded, active, States(ups), lastSwitch, stall, lag, minDwell)
    }

    method AddStandby(id: Id, ip: string)
      requires Valid()
      modifies `ups
      ensures Valid() && View() == old(View()).With(id, NewUpstream(ip))
    {
      StatesWith(ups, id, Upstream(NewUpstream(ip), 0));
      ups := ups[id := Upstream(NewUpstream(ip), 0)];
    }

    method MarkPreferred(id: Id)
      requires Valid()
      modifies `ups
      ensures Valid()
      ensures View() == if id in old(ups)
                        then old(View()).With(id, old(View()).ups[id].(preferred := true)) else old(View())
    {
      if id in ups {
        var u := ups[id].(state := ups[id].state.(preferred := true));
        StatesWith(ups, id, u);
        ups := ups[id := u];
      }
    }

    method Remove(id: Id) returns (ip: Option<string>)
      requires Valid()
      modifies `ups
      ensures Valid() && View() == old(View()).(ups := old(View()).ups - {id})
      ensures ip == if id in old(ups) then Some(old(ups)[id].state.ip) else None
    {
      ip := if id in ups then Some(ups[id].state.ip) else None;
      ups := ups - {id};
      assert States(ups) == old(States(ups)) - {id};
    }

    method RecordForwarded(round: u32, hash: Hash, at: Time)
      modifies `lastForwarded, `forwarded
      ensures View() == old(View()).Recorded(round, hash, at)
    {
      lastForwarded := round;
      forwarded := forwarded[round := Forwarded(hash, at)];
      ghost var all := forwarded;
      while |forwarded| > FORWARDED_KEEP
        invariant lastForwarded == round && KeepHighest(forwarded) == KeepHighest(all)
        decreases |forwarded|
      {
        var low := MinKey(forwarded);
        assert forwarded.Keys == (forwarded - {low}).Keys + {low};
        forwarded := forwarded - {low};
      }
    }

    // Settle a forwarded round with all standbys, in whatever order the map gives them.
    method SettleStandbys(round: u32, hash: Hash, at: Time) returns (bad: set<(Id, u32)>)
      requires Valid()
      modifies `ups
      ensures Valid() && View() == old(View()).Settled(round, hash, at)
      ensures bad == set id | id in old(View()).Disagreeing(round, hash) :: (id, round)
    {
      ghost var before := View();
      ghost var was := ups;
      var ids;
      ups, ids := SettleEach(ups, active, round, hash, at, lastForwarded);
      SettledAll(before, was, round, hash, at, ups, ids);
      bad := set id | id in ids :: (id, round);
    }

    // The active delivers: forward or not, and which standbys that speaks against.
    method OnActiveBlock(round: u32, hash: Hash, at: Time) returns (forward: bool, bad: set<(Id, u32)>)
      requires Valid()
      modifies `lastForwarded, `forwarded, `ups
      ensures Valid()
      ensures View() == old(View()).OnActiveBlock(round, hash, at)
      ensures forward == old(View()).IsNew(round)
      ensures forward ==> bad == set id | id in old(View()).Disagreeing(round, hash) :: (id, round)
      ensures !forward ==> bad == {}
    {
      ghost var before := View();
      if active in ups {
        var u := ups[active].(state := ups[active].state.(lastRx := Some(at)));
        StatesWith(ups, active, u);
        ups := ups[active := u];
      }
      assert View() == before.Heard(active, at);
      if lastForwarded != 0 && round <= lastForwarded {
        return false, {};
      }
      RecordForwarded(round, hash, at);
      assert View().Disagreeing(round, hash) == before.Disagreeing(round, hash);
      bad := SettleStandbys(round, hash, at);
      forward := true;
    }

    // A block from a standby: checked against the forwarded chain, or buffered.
    method OnStandbyBlock(id: Id, round: u32, parent: u32, hash: Hash, at: Time, frame: Frame)
      returns (verdict: StandbyVerdict)
      requires Valid()
      modifies `ups
      ensures Valid()
      ensures View() == old(View()).OnStandbyBlock(id, round, Ahead(parent, hash, at, frame))
      ensures verdict == if old(View()).StandbyRejected(id, round, hash) then Mismatch(round) else Ok
    {
      if id !in ups {
        return Ok;
      }
      var u;
      u, verdict := Receive(ups[id], round, Ahead(parent, hash, at, frame));
      StatesWith(ups, id, u);
      ups := ups[id := u];
    }

    method Receive(up: Upstream, round: u32, a: Ahead) returns (u: Upstream, verdict: StandbyVerdict)
      requires up.Valid()
      ensures u.Valid() && u.state == View().Received(up.state, round, a)
      ensures verdict == if View().Differs(up.state, round, a.hash) then Mismatch(round) else Ok
    {
      var heard := up.(state := up.state.(lastRx := Some(a.at)));
      if round > lastForwarded {
        u := heard.InsertAhead(round, a);
        return u, Ok;
      }
      if round !in forwarded {
        return heard, Ok;
      }
      var Forwarded(h, fat) := forwarded[round];
      var drop;
      u, drop := heard.Compared(h == a.hash, 0 - Elapsed(a.at, fat));
      verdict := if drop then Mismatch(round) else Ok;
    }

    // The pick of one timer step.
    method PickSwitch(now: Time, activeDead: bool) returns (pick: Option<(Id, SwitchReason)>)
      requires Valid()
      ensures View().Picks(now, activeDead, pick)
    {
      if lastForwarded == 0 {
        return None;
      }
      var stallBest: Option<(Id, int, nat, Time)> := None;
      var lagBest: Option<(Id, int)> := None;
      var preferredBest: Option<(Id, int)> := None;
      var dwellOk := lastSwitch.None? || Elapsed(now, lastSwitch.value) >= minDwell;
      var activePreferred := active in ups && ups[active].state.preferred;
      ghost var s := View();
      var todo := ups.Keys;
      while todo != {}
        invariant todo <= s.ups.Keys == ups.Keys
        invariant StallBestOf(s, now, activeDead, s.ups.Keys - todo, stallBest)
        invariant PreferredBestOf(s, now, s.ups.Keys - todo, preferredBest)
        invariant LagBestOf(s, now, s.ups.Keys - todo, lagBest)
        decreases todo
      {
        var id :| id in todo;
        ghost var seen := s.ups.Keys - todo;
        todo := todo - {id};
        assert s.ups.Keys - todo == seen + {id};
        stallBest, preferredBest, lagBest :=
          Consider(id, ups[id], now, activeDead, dwellOk, activePreferred, stallBest, preferredBest, lagBest, seen);
      }
      assert s.ups.Keys - todo == s.ups.Keys;
      BestOverall(s, now, activeDead, stallBest, preferredBest, lagBest);
      if stallBest.Some? {
        return Some((stallBest.value.0, if activeDead then ActiveDead else Stall));
      }
      if preferredBest.Some? {
        return Some((preferredBest.value.0, Preferred));
      }
      if lagBest.Some? {
        return Some((lagBest.value.0, Lag));
      }
      return None;
    }

    // One upstream's turn in that choice.
    method Consider(id: Id, up: Upstream, now: Time, activeDead: bool, dwellOk: bool, activePreferred: bool,
                    stallBest: Option<(Id, int, nat, Time)>,
                    preferredBest: Option<(Id, int)>, lagBest: Option<(Id, int)>, ghost seen: set<Id>)
      returns (stallBest': Option<(Id, int, nat, Time)>,
               preferredBest': Option<(Id, int)>, lagBest': Option<(Id, int)>)
      requires id in ups && up == ups[id]
      requires dwellOk == View().DwellOver(now) && activePreferred == View().ActivePreferred()
      requires StallBestOf(View(), now, activeDead, seen, stallBest)
      requires PreferredBestOf(View(), now, seen, preferredBest)
      requires LagBestOf(View(), now, seen, lagBest)
      ensures StallBestOf(View(), now, activeDead, seen + {id}, stallBest')
      ensures PreferredBestOf(View(), now, seen + {id}, preferredBest')
      ensures LagBestOf(View(), now, seen + {id}, lagBest')
    {
      stallBest', preferredBest', lagBest' := stallBest, preferredBest, lagBest;
      ghost var s := View();
      StallStep(s, now, activeDead, seen, stallBest, id);
      PreferredStep(s, now, seen, preferredBest, id);
      LagStep(s, now, seen, lagBest, id);
      var chain := ChainOf(id, up);
      if chain.None? {
        return;
      }
      var (n, firstAt) := chain.value;
      var median := up.state.MedianLead();
      var lead := if median.None? then I64_MIN else median.value;
      assert s.Lead(id) == lead;
      if activeDead || Elapsed(now, firstAt) >= stall {
        stallBest' := BetterStall(stallBest, (id, lead, n, firstAt));
      }
      if dwellOk && up.state.preferred && !activePreferred {
        preferredBest' := BetterLead(preferredBest, (id, lead));
      }
      if dwellOk && (up.state.preferred || !activePreferred) {
        if median.Some? && median.value >= lag {
          lagBest' := BetterLead(lagBest, (id, median.value));
        }
      }
    }

    // A verified standby's chain length and first arrival, if it can continue the node's stream.
    method ChainOf(id: Id, up: Upstream) returns (r: Option<(nat, Time)>)
      requires id in ups && up == ups[id]
      ensures r.Some? <==> View().Candidate(id)
      ensures r.Some? ==> r.value == (View().ChainLength(id), View().FirstAt(id))
    {
      if id == active || up.state.verified < MIN_VERIFIED {
        return None;
      }
      var n, firstAt := up.ChainLen(lastForwarded);
      return if firstAt.None? then None else Some((n, firstAt.value));
    }

    // Hand the node's stream over to `id`, if its buffer holds what comes next; the second result are
    // the standbys the replayed blocks speak against.
    method SwitchTo(id: Id, now: Time) returns (r: Option<(seq<Frame>, set<(Id, u32)>)>)
      requires Valid()
      modifies this
      ensures Valid()
      ensures r.Some? <==> old(View()).CanSwitchTo(id)
      ensures r.None? ==> View() == old(View())
      ensures r.Some? ==>
        && View() == old(View()).SwitchTo(id, now)
        && r.value.0 == FramesOf(old(View()).ReplayBlocks(id))
        && var blocks := old(View()).ReplayBlocks(id);
           r.value.1 == old(View()).TakenOver(id, now).ReplayDisagreeing(blocks, |blocks|)
    {
      var chain := TakeOver(id, now);
      if chain == [] {
        return None;
      }
      var frames, bad := Replay(chain);
      ClearLeads();
      return Some((frames, bad));
    }

    // Take the chain continuing the node's last block out of `id` and make it the active.
    method TakeOver(id: Id, now: Time) returns (chain: seq<(u32, Ahead)>)
      requires Valid()
      modifies `ups, `active, `lastSwitch
      ensures Valid()
      ensures chain == [] <==> !old(View()).CanSwitchTo(id)
      ensures chain == [] ==> View() == old(View())
      ensures chain != [] ==> chain == old(View()).ReplayBlocks(id) && View() == old(View()).TakenOver(id, now)
    {
      if id !in ups {
        return [];
      }
      var u;
      u, chain := TakeOut(ups[id], lastForwarded);
      if chain == [] {
        return;
      }
      StatesWith(ups, id, u);
      ups := ups[id := u];
      active := id;
      lastSwitch := Some(now);
    }

    // A lead says nothing against another active.
    method ClearLeads()
      requires Valid()
      modifies `ups
      ensures Valid() && View() == old(View()).LeadsCleared()
    {
      ups := map x | x in ups :: ups[x].(state := ups[x].state.(leads := []));
      assert States(ups) == old(View()).LeadsCleared().ups;
    }

    method ReplayOne(round: u32, a: Ahead) returns (bad: set<(Id, u32)>)
      requires Valid()
      modifies `lastForwarded, `forwarded, `ups
      ensures Valid() && View() == old(View()).Forward(round, a.hash, a.at)
      ensures bad == set id | id in old(View()).Recorded(round, a.hash, a.at).Disagreeing(round, a.hash) :: (id, round)
    {
      RecordForwarded(round, a.hash, a.at);
      bad := SettleStandbys(round, a.hash, a.at);
    }

    // Forward the taken-over chain, block by block.
    method Replay(chain: seq<(u32, Ahead)>) returns (frames: seq<Frame>, bad: set<(Id, u32)>)
      requires Valid()
      modifies `lastForwarded, `forwarded, `ups
      ensures Valid() && View() == old(View()).Replayed(chain, |chain|)
      ensures frames == FramesOf(chain)
      ensures bad == old(View()).ReplayDisagreeing(chain, |chain|)
    {
      ghost var start := View();
      frames, bad := [], {};
      for i := 0 to |chain|
        invariant Valid() && ReplayedUpTo(start, chain, i, View(), frames, bad)
      {
        ghost var before := View();
        var more := ReplayOne(chain[i].0, chain[i].1);
        ReplayStep(start, chain, i, before, frames, bad, more);
        bad := bad + more;
        frames := frames + [chain[i].1.frame];
      }
      assert chain[..|chain|] == chain;
    }
  }

  // The chain an upstream can replay, taken out of its buffer; none if it may have discarded a block.
  method TakeOut(up: Upstream, last: u32) returns (u: Upstream, chain: seq<(u32, Ahead)>)
    requires up.Valid()
    ensures u.Valid() && u.state == up.state.WithoutChain(up.state.ReplayableChain(last))
    ensures chain == Blocks(up.state.ahead, up.state.ReplayableChain(last))
  {
    if up.state.droppedMax > last {
      NoneTakenOut(up.state);
      return up, [];
    }
    u, chain := up.TakeChain(last);
  }

  lemma NoneTakenOut(u: UpstreamState)
    ensures u.WithoutChain([]) == u
  {
    assert u.ahead - (set r: u32 | r in []) == u.ahead;
  }

  // The loop of `settle_standbys`, over the upstreams in any order.
  method SettleEach(ups: map<Id, Upstream>, active: Id, round: u32, hash: Hash, at: Time, floor: u32)
    returns (settled: map<Id, Upstream>, bad: set<Id>)
    requires AllValid(ups)
    ensures settled.Keys == ups.Keys && SettledPart(ups, active, round, hash, at, floor, settled, bad)
  {
    settled, bad := map[], {};
    var todo := ups.Keys;
    while todo != {}
      invariant AllBut(ups, settled, todo)
      invariant SettledPart(ups, active, round, hash, at, floor, settled, bad)
      decreases todo
    {
      var id :| id in todo;
      var u, rejected := SettleOne(ups[id], id == active, round, hash, at, floor);
      AllButOneLess(ups, settled, todo, id, u);
      SettledOneMore(ups, active, round, hash, at, floor, settled, bad, id, u);
      settled := settled[id := u];
      if rejected {
        bad := bad + {id};
      }
      todo := todo - {id};
    }
  }

  // `settled` holds all upstreams but `todo`.
  ghost predicate AllBut(ups: map<Id, Upstream>, settled: map<Id, Upstream>, todo: set<Id>) {
    todo <= ups.Keys && settled.Keys == ups.Keys - todo
  }

  lemma AllButOneLess(ups: map<Id, Upstream>, settled: map<Id, Upstream>, todo: set<Id>, id: Id, u: Upstream)
    requires AllBut(ups, settled, todo) && id in todo
    ensures id !in settled && AllBut(ups, settled[id := u], todo - {id})
  {
  }

  // The upstreams in `settled` are settled, and `bad` are those of them that were dropped.
  ghost predicate SettledPart(ups: map<Id, Upstream>, active: Id, round: u32, hash: Hash, at: Time, floor: u32,
                              settled: map<Id, Upstream>, bad: set<Id>)
  {
    && settled.Keys <= ups.Keys && AllValid(settled)
    && (forall id | id in settled ::
          settled[id].state == SettledUnlessActive(ups[id].state, id == active, round, hash, at, floor))
    && (forall id :: id in bad <==> id in settled && RejectedUnlessActive(ups[id].state, id == active, round, hash))
  }

  // With all upstreams settled, that is the settled core and its disagreeing standbys.
  lemma SettledAll(core: CoreState, ups: map<Id, Upstream>, round: u32, hash: Hash, at: Time,
                   settled: map<Id, Upstream>, bad: set<Id>)
    requires core.ups == States(ups) && settled.Keys == ups.Keys
    requires SettledPart(ups, core.active, round, hash, at, core.lastForwarded, settled, bad)
    ensures States(settled) == core.Settled(round, hash, at).ups && bad == core.Disagreeing(round, hash)
  {
  }

  lemma SettledOneMore(ups: map<Id, Upstream>, active: Id, round: u32, hash: Hash, at: Time, floor: u32,
                       settled: map<Id, Upstream>, bad: set<Id>, id: Id, u: Upstream)
    requires SettledPart(ups, active, round, hash, at, floor, settled, bad)
    requires id in ups && id !in settled && u.Valid()
    requires u.state == SettledUnlessActive(ups[id].state, id == active, round, hash, at, floor)
    ensures SettledPart(ups, active, round, hash, at, floor, settled[id := u],
              if RejectedUnlessActive(ups[id].state, id == active, round, hash) then bad + {id} else bad)
  {
  }

  predicate RejectedUnlessActive(u: UpstreamState, isActive: bool, round: u32, hash: Hash) {
    !isActive && u.SettleRejects(round, hash)
  }

  method SettleOne(up: Upstream, isActive: bool, round: u32, hash: Hash, at: Time, floor: u32)
    returns (u: Upstream, rejected: bool)
    requires up.Valid()
    ensures u.Valid() && u.state == SettledUnlessActive(up.state, isActive, round, hash, at, floor)
    ensures rejected == RejectedUnlessActive(up.state, isActive, round, hash)
  {
    u, rejected := up, false;
    if !isActive {
      u, rejected := up.Settle(round, hash, at, floor);
    }
  }

  // The first `i` blocks of a replay are done, with these frames sent and these standbys reported.
  ghost predicate ReplayedUpTo(start: CoreState, chain: seq<(u32, Ahead)>, i: nat, now: CoreState,
                               frames: seq<Frame>, bad: set<(Id, u32)>)
  {
    && i <= |chain| && now == start.Replayed(chain, i)
    && frames == FramesOf(chain[..i]) && bad == start.ReplayDisagreeing(chain, i)
  }

  lemma ReplayStep(start: CoreState, chain: seq<(u32, Ahead)>, i: nat, now: CoreState,
                   frames: seq<Frame>, bad: set<(Id, u32)>, more: set<(Id, u32)>)
    requires i < |chain| && ReplayedUpTo(start, chain, i, now, frames, bad)
    requires var (r, a) := chain[i];
             more == set id | id in now.Recorded(r, a.hash, a.at).Disagreeing(r, a.hash) :: (id, r)
    ensures var (r, a) := chain[i];
            ReplayedUpTo(start, chain, i + 1, now.Forward(r, a.hash, a.at), frames + [a.frame], bad + more)
  {
    ReportsOneMore(start, chain, i);
    FramesOneMore(chain, i);
  }

  lemma ReportsOneMore(s: CoreState, chain: seq<(u32, Ahead)>, i: nat)
    requires i < |chain|
    ensures s.ReplayDisagreeing(chain, i + 1)
         == s.ReplayDisagreeing(chain, i) + set id | id in s.ReportsAt(chain, i) :: (id, chain[i].0)
  {
  }

  lemma FramesOneMore(chain: seq<(u32, Ahead)>, i: nat)
    requires i < |chain|
    ensures FramesOf(chain[..i + 1]) == FramesOf(chain[..i]) + [chain[i].1.frame]
  {
  }

  function FramesOf(blocks: seq<(u32, Ahead)>): seq<Frame> {
    seq(|blocks|, i requires 0 <= i < |blocks| => blocks[i].1.frame)
  }

  // ---- the best candidate among those already visited ----

  function BetterStall(best: Option<(Id, int, nat, Time)>, x: (Id, int, nat, Time))
    : Option<(Id, int, nat, Time)>
  {
    if || best.None?
       || x.1 > best.value.1
       || (x.1 == best.value.1 && x.2 > best.value.2)
       || (x.1 == best.value.1 && x.2 == best.value.2 && x.3 < best.value.3)
    then Some(x) else best
  }

  function BetterLead(best: Option<(Id, int)>, x: (Id, int)): Option<(Id, int)> {
    if best.None? || x.1 > best.value.1 then Some(x) else best
  }

  ghost predicate StallBestOf(s: CoreState, now: Time, activeDead: bool, seen: set<Id>,
                              best: Option<(Id, int, nat, Time)>)
  {
    match best
    case None => forall x | x in seen :: !s.StallCandidate(x, now, activeDead)
    case Some((id, lead, n, at)) =>
      && s.StallCandidate(id, now, activeDead)
      && (lead, n, at) == (s.Lead(id), s.ChainLength(id), s.FirstAt(id))
      && forall x | x in seen && s.StallCandidate(x, now, activeDead) :: !s.RanksAbove(x, id)
  }

  ghost predicate PreferredBestOf(s: CoreState, now: Time, seen: set<Id>, best: Option<(Id, int)>) {
    match best
    case None => forall x | x in seen :: !s.PreferredCandidate(x, now)
    case Some((id, lead)) =>
      && s.PreferredCandidate(id, now)
      && lead == s.Lead(id)
      && forall x | x in seen && s.PreferredCandidate(x, now) :: s.Lead(x) <= lead
  }

  ghost predicate LagBestOf(s: CoreState, now: Time, seen: set<Id>, best: Option<(Id, int)>) {
    match best
    case None => forall x | x in seen :: !s.LagCandidate(x, now)
    case Some((id, lead)) =>
      && s.LagCandidate(id, now)
      && lead == s.Lead(id)
      && forall x | x in seen && s.LagCandidate(x, now) :: s.Lead(x) <= lead
  }

  lemma StallStep(s: CoreState, now: Time, activeDead: bool, seen: set<Id>,
                  best: Option<(Id, int, nat, Time)>, id: Id)
    requires StallBestOf(s, now, activeDead, seen, best)
    ensures StallBestOf(s, now, activeDead, seen + {id},
              if s.StallCandidate(id, now, activeDead)
              then BetterStall(best, (id, s.Lead(id), s.ChainLength(id), s.FirstAt(id))) else best)
  {
  }

  lemma PreferredStep(s: CoreState, now: Time, seen: set<Id>, best: Option<(Id, int)>, id: Id)
    requires PreferredBestOf(s, now, seen, best)
    ensures PreferredBestOf(s, now, seen + {id},
              if s.PreferredCandidate(id, now) then BetterLead(best, (id, s.Lead(id))) else best)
  {
  }

  lemma LagStep(s: CoreState, now: Time, seen: set<Id>, best: Option<(Id, int)>, id: Id)
    requires LagBestOf(s, now, seen, best)
    ensures LagBestOf(s, now, seen + {id},
              if s.LagCandidate(id, now) then BetterLead(best, (id, s.Lead(id))) else best)
  {
  }

  // The best of all upstreams, by kind, make one of the picks.
  lemma BestOverall(s: CoreState, now: Time, activeDead: bool, stallBest: Option<(Id, int, nat, Time)>,
                    preferredBest: Option<(Id, int)>, lagBest: Option<(Id, int)>)
    requires s.lastForwarded != 0
    requires StallBestOf(s, now, activeDead, s.ups.Keys, stallBest)
    requires PreferredBestOf(s, now, s.ups.Keys, preferredBest)
    requires LagBestOf(s, now, s.ups.Keys, lagBest)
    ensures s.Picks(now, activeDead,
              if stallBest.Some? then Some((stallBest.value.0, if activeDead then ActiveDead else Stall))
              else if preferredBest.Some? then Some((preferredBest.value.0, Preferred))
              else if lagBest.Some? then Some((lagBest.value.0, Lag))
              else None)
  {
  }
}
