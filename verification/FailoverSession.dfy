/**
 The step glue of a failover session (`src/failover/session.rs`): the gates a block passes before it
 reaches the core, and the switch step, which removes the old active and re-bases its progress.

 `Session` is the state the event loop keeps and specifies each of its steps; the class
 `FailoverSession` runs the steps on a `Core`.
 */
module FailoverSession {
  import opened Primitives
  import opened Rounds
  import opened FailoverUpstream
  import opened FailoverCore

  type Block = (u32, Ahead)

  datatype Session = Session(core: CoreState, progress: Progress, activeDead: bool, nextId: Id) {

    function Drop(ids: set<Id>): Session {
      this.(core := core.(ups := core.ups - ids))
    }

    // ---- a block from an upstream ----

    predicate Acceptable(round: u32, tip: u32) {
      IsPlausible(round, tip) && LagFromTip(round, tip, ACTIVE_ROUND_MAX_LAG).None?
    }

    // The active's block passes every gate before the core.
    predicate ReachesCore(round: u32, tip: u32, floor: u32) {
      Acceptable(round, tip) && !activeDead && !progress.Jumps(round) && round > floor
    }

    predicate SendsBlock(id: Id, round: u32, tip: u32, floor: u32) {
      id in core.ups && id == core.active && ReachesCore(round, tip, floor) && core.IsNew(round)
    }

    function OnActiveBlock(b: Block, tip: u32, floor: u32): Session {
      if !Acceptable(b.0, tip) then this.(activeDead := true)
      else if activeDead then this
      else if progress.Jumps(b.0) then this.(activeDead := true)
      else
        var s := this.(progress := progress.Reached(b.0, b.1.at));
        if b.0 <= floor then s
        else
          var bad := if core.IsNew(b.0) then core.Disagreeing(b.0, b.1.hash) else {};
          s.(core := core.OnActiveBlock(b.0, b.1.hash, b.1.at)).Drop(bad)
    }

    function OnStandbyBlock(id: Id, b: Block, tip: u32): Session {
      if !Acceptable(b.0, tip) then Drop({id})
      else
        var s := this.(core := core.OnStandbyBlock(id, b.0, b.1));
        if core.StandbyRejected(id, b.0, b.1.hash) then s.Drop({id}) else s
    }

    function OnBlock(id: Id, b: Block, tip: u32, floor: u32): Session {
      if id !in core.ups then this
      else if id == core.active then OnActiveBlock(b, tip, floor)
      else OnStandbyBlock(id, b, tip)
    }

    // ---- upstreams coming and going ----

    function Join(ip: string, preferred: bool): Session {
      this.(core := core.With(nextId, NewUpstream(ip).(preferred := preferred)), nextId := nextId + 1)
    }

    function Leave(id: Id): Session {
      if id == core.active then this.(activeDead := true) else Drop({id})
    }

    // ---- the switch step ----

    function Switch(id: Id, now: Time): Session
      requires core.CanSwitchTo(id)
    {
      var switched := core.SwitchTo(id, now);
      var blocks := core.ReplayBlocks(id);
      var bad := set b | b in core.TakenOver(id, now).ReplayDisagreeing(blocks, |blocks|) :: b.0;
      Session(switched, NewProgress(switched.lastForwarded, now), false, nextId).Drop({core.active} + bad)
    }

    function OnPick(pick: Option<(Id, SwitchReason)>, now: Time): Session {
      if pick.Some? && core.CanSwitchTo(pick.value.0) then Switch(pick.value.0, now) else this
    }
  }

  function NewSession(ip: string, preferred: bool, lastForwarded: u32, now: Time,
                      stall: nat, lag: nat, minDwell: nat): Session
  {
    var core := NewCore(0, ip, lastForwarded, stall, lag, minDwell);
    Session(core.With(0, NewUpstream(ip).(preferred := preferred)), NewProgress(lastForwarded, now), false, 1)
  }

  lemma WithTwice(core: CoreState, id: Id, u: UpstreamState, v: UpstreamState)
    ensures core.With(id, u).With(id, v) == core.With(id, v)
    ensures core.With(id, u).ups[id] == u
  {
  }

  class FailoverSession {
    const core: Core
    var progress: Progress
    var activeDead: bool
    var nextId: Id

    constructor (ip: string, preferred: bool, lastForwarded: u32, now: Time, stall: nat, lag: nat, minDwell: nat)
      ensures Valid() && fresh(core)
      ensures View() == NewSession(ip, preferred, lastForwarded, now, stall, lag, minDwell)
    {
      core := new Core(0, ip, lastForwarded, stall, lag, minDwell);
      progress := NewProgress(lastForwarded, now);
      activeDead, nextId := false, 1;
      new;
      if preferred {
        core.MarkPreferred(0);
      }
    }

    ghost predicate Valid()
      reads this, core
    {
      core.Valid()
    }

    ghost function View(): Session
      reads this, core
    {
      Session(core.View(), progress, activeDead, nextId)
    }

    // Remove the dropped upstreams, in any order.
    method DropAll(ids: set<Id>)
      requires Valid()
      modifies core
      ensures Valid() && View() == old(View()).Drop(ids)
    {
      var todo := ids;
      ghost var ups, gone: set<Id> := core.View().ups, {};
      assert ups - gone == ups;
      while todo != {}
        invariant Valid() && gone + todo == ids
        invariant core.View() == old(core.View()).(ups := ups - gone)
        decreases todo
      {
        var id :| id in todo;
        var _ := core.Remove(id);
        assert (ups - gone) - {id} == ups - (gone + {id});
        todo, gone := todo - {id}, gone + {id};
      }
      assert gone == ids;
    }

    // Upstream `id` delivers a block; the result goes to the node.
    method OnBlock(id: Id, round: u32, parent: u32, hash: Hash, at: Time, frame: Frame, tip: u32, floor: u32)
      returns (out: seq<Frame>)
      requires Valid()
      modifies this, core
      ensures Valid()
      ensures View() == old(View()).OnBlock(id, (round, Ahead(parent, hash, at, frame)), tip, floor)
      ensures out == if old(View()).SendsBlock(id, round, tip, floor) then [frame] else []
    {
      if id !in core.ups {
        out := [];
      } else if id == core.active {
        out := OnActiveBlock(round, parent, hash, at, frame, tip, floor);
      } else {
        OnStandbyBlock(id, round, parent, hash, at, frame, tip);
        out := [];
      }
    }

    method OnActiveBlock(round: u32, parent: u32, hash: Hash, at: Time, frame: Frame, tip: u32, floor: u32)
      returns (out: seq<Frame>)
      requires Valid()
      modifies this, core
      ensures Valid()
      ensures View() == old(View()).OnActiveBlock((round, Ahead(parent, hash, at, frame)), tip, floor)
      ensures out == if old(View()).ReachesCore(round, tip, floor) && old(View()).core.IsNew(round) then [frame] else []
    {
      out := [];
      if !IsPlausible(round, tip) || LagFromTip(round, tip, ACTIVE_ROUND_MAX_LAG).Some? {
        activeDead := true;
      } else if !activeDead {
        if progress.Jumps(round) {
          activeDead := true;
        } else {
          progress := progress.Reached(round, at);
          if round > floor {
            var forward := ForwardActiveBlock(round, hash, at);
            out := if forward then [frame] else [];
          }
        }
      }
    }

    // Hand the active's block to the core and drop the standbys it finds disagreeing.
    method ForwardActiveBlock(round: u32, hash: Hash, at: Time) returns (forward: bool)
      requires Valid()
      modifies core
      ensures Valid()
      ensures forward == old(View()).core.IsNew(round)
      ensures View() == old(View()).(core := old(View()).core.OnActiveBlock(round, hash, at))
                        .Drop(if forward then old(View()).core.Disagreeing(round, hash) else {})
    {
      ghost var before := core.View();
      var bad;
      forward, bad := core.OnActiveBlock(round, hash, at);
      var ids := set b | b in bad :: b.0;
      assert ids == if forward then before.Disagreeing(round, hash) else {} by {
        if forward {
          assert forall id | id in before.Disagreeing(round, hash) :: (id, round) in bad && (id, round).0 in ids;
        }
      }
      DropAll(ids);
    }

    method OnStandbyBlock(id: Id, round: u32, parent: u32, hash: Hash, at: Time, frame: Frame, tip: u32)
      requires Valid()
      modifies core
      ensures Valid()
      ensures View() == old(View()).OnStandbyBlock(id, (round, Ahead(parent, hash, at, frame)), tip)
    {
      if !IsPlausible(round, tip) || LagFromTip(round, tip, ACTIVE_ROUND_MAX_LAG).Some? {
        DropAll({id});
      } else {
        var verdict := core.OnStandbyBlock(id, round, parent, hash, at, frame);
        if verdict.Mismatch? {
          DropAll({id});
        }
      }
    }

    method Join(ip: string, preferred: bool)
      requires Valid()
      modifies this, core
      ensures Valid() && View() == old(View()).Join(ip, preferred)
    {
      AddJoined(nextId, ip, preferred);
      nextId := nextId + 1;
    }

    method AddJoined(id: Id, ip: string, preferred: bool)
      requires Valid()
      modifies core
      ensures Valid()
      ensures core.View() == old(core.View()).With(id, NewUpstream(ip).(preferred := preferred))
    {
      ghost var before, u := core.View(), NewUpstream(ip);
      core.AddStandby(id, ip);
      WithTwice(before, id, u, u.(preferred := true));
      if preferred {
        core.MarkPreferred(id);
      }
    }

    method Leave(id: Id)
      requires Valid()
      modifies this, core
      ensures Valid() && View() == old(View()).Leave(id)
    {
      if id == core.active {
        activeDead := true;
      } else {
        var _ := core.Remove(id);
      }
    }

    // The timer step, which may switch; what is then replayed goes to the node.
    method OnTick(now: Time) returns (out: seq<Frame>, ghost pick: Option<(Id, SwitchReason)>)
      requires Valid()
      modifies this, core
      ensures Valid()
      ensures old(View()).core.Picks(now, old(activeDead), pick)
      ensures View() == old(View()).OnPick(pick, now)
      ensures out == if pick.Some? && old(View()).core.CanSwitchTo(pick.value.0)
                     then FramesOf(old(View()).core.ReplayBlocks(pick.value.0)) else []
    {
      var picked := core.PickSwitch(now, activeDead);
      pick := picked;
      if picked.None? {
        return [], pick;
      }
      out := SwitchTo(picked.value.0, now);
    }

    // The switch step: replay the standby's chain, then drop the old active and the disagreeing.
    method SwitchTo(id: Id, now: Time) returns (out: seq<Frame>)
      requires Valid()
      modifies this, core
      ensures Valid()
      ensures View() == if old(View()).core.CanSwitchTo(id) then old(View()).Switch(id, now) else old(View())
      ensures out == if old(View()).core.CanSwitchTo(id) then FramesOf(old(View()).core.ReplayBlocks(id)) else []
    {
      var replaced := core.active;
      var r := core.SwitchTo(id, now);
      if r.None? {
        return [];
      }
      out := r.value.0;
      activeDead := false;
      progress := NewProgress(core.lastForwarded, now);
      DropAll({replaced} + set b | b in r.value.1 :: b.0);
    }
  }
}
