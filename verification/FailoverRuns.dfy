/**
 Failover sessions over whole runs: any interleaving of blocks from the active and the standbys,
 upstreams joining, leaving and dying, and timer steps that may switch.

 A `World` is a session together with everything that happened in it. `Inv` holds in every world a
 run can reach; the theorems at the end say what that means for the node.
 */
module FailoverRuns {
  import opened Primitives
  import opened FailoverUpstream
  import opened FailoverCore
  import opened FailoverSession
  import opened FailoverBooks
  import opened FailoverSeam

  // A switch, its target, and the comparisons the target was picked on.
  datatype SwitchRecord = SwitchRecord(
    at: Time, to: Id, reason: SwitchReason, fromPreferred: bool, toPreferred: bool, evidence: seq<Comparison>)

  datatype Event =
    | BlockFrom(id: Id, block: Block, tip: u32, floor: u32)
    | Joins(ip: string, preferred: bool)
    | Leaves(id: Id)  // closed, blacklisted, rotated out; for the active: it is dead
    | Tick(now: Time, pick: Option<(Id, SwitchReason)>)

  datatype World = World(
    session: Session,
    base: u32,
    sent: seq<Sent>,
    logs: Logs,
    comps: Comparisons,
    switches: seq<SwitchRecord>,
    // a block of the active was held back by the node's live floor
    suppressed: bool)
  {
    function LogOf(id: Id): Log {
      LogIn(logs, id)
    }

    function ComparisonsOf(id: Id): seq<Comparison> {
      if id in comps then comps[id] else []
    }

    // ---- steps ----

    predicate HeldByFloor(id: Id, b: Block, tip: u32, floor: u32) {
      && id == session.core.active
      && session.Acceptable(b.0, tip) && !session.activeDead && !session.progress.Jumps(b.0)
      && b.0 <= floor
    }

    function OnBlock(id: Id, b: Block, tip: u32, floor: u32): World {
      if id !in session.core.ups then this
      else
        var core, sends := session.core, session.SendsBlock(id, b.0, tip, floor);
        this.(session := session.OnBlock(id, b, tip, floor),
              sent := if sends then sent + [Sent(b, id, false)] else sent,
              logs := logs[id := LogOf(id) + [b]],
              comps := if sends then SettleComparisons(core.Heard(id, b.1.at), comps, b.0, b.1.hash)
                       else if id != core.active && session.Acceptable(b.0, tip)
                       then comps[id := StandbyComparison(core, ComparisonsOf(id), b)]
                       else comps,
              suppressed := suppressed || HeldByFloor(id, b, tip, floor))
    }

    function Join(ip: string, preferred: bool): World {
      this.(session := session.Join(ip, preferred),
            logs := logs[session.nextId := []], comps := comps[session.nextId := []])
    }

    function Evidence(id: Id): seq<Comparison> {
      var c := ComparisonsOf(id);
      if |c| < MIN_VERIFIED then c else c[|c| - MIN_VERIFIED..]
    }

    function Switch(now: Time, id: Id, reason: SwitchReason): World
      requires session.core.CanSwitchTo(id)
    {
      var core := session.core;
      var blocks := core.ReplayBlocks(id);
      this.(session := session.Switch(id, now),
            sent := sent + SentAs(blocks, id),
            comps := ReplayComparisons(core.TakenOver(id, now), comps, blocks, |blocks|),
            switches := switches + [SwitchRecord(now, id, reason, core.ActivePreferred(), core.ups[id].preferred,
                                                 Evidence(id))])
    }

    function Next(e: Event): World {
      match e
      case BlockFrom(id, b, tip, floor) => OnBlock(id, b, tip, floor)
      case Joins(ip, preferred) => Join(ip, preferred)
      case Leaves(id) => this.(session := session.Leave(id))
      case Tick(now, pick) => OnPick(now, pick)
    }

    function OnPick(now: Time, pick: Option<(Id, SwitchReason)>): World {
      if pick.Some? && session.core.CanSwitchTo(pick.value.0)
      then Switch(now, pick.value.0, pick.value.1) else this
    }

    // A timer step's pick is one `pick_switch` can make.
    ghost predicate Enabled(e: Event) {
      e.Tick? ==> session.core.Picks(e.now, session.activeDead, e.pick)
    }

    // ---- the invariant ----

    ghost predicate Ids() {
      && session.core.active in session.core.ups
      && session.core.ups.Keys <= logs.Keys
      && logs.Keys <= comps.Keys
      && forall id | id in logs :: id < session.nextId
    }

    // While the active lives and the floor held nothing back, a linked active's newest block is the
    // node's newest block.
    ghost predicate Seam() {
      !session.activeDead && !suppressed && sent != []
      ==> EndsAt(LogOf(session.core.active), session.core.lastForwarded)
    }

    // A replayed block continues the round sent before it; so does every block of a linked upstream,
    // if the floor held nothing back.
    ghost predicate Links() {
      LinkedSends(base, sent, suppressed, logs)
    }

    ghost predicate SwitchRules() {
      RulesHold(switches, logs, sent, session.core.lastSwitch, session.core.minDwell)
    }

    ghost predicate Inv() {
      && Ids()
      && Books(session.core, base, sent, logs, comps, {})
      && Seam() && Links() && SwitchRules()
    }
  }

  function LogIn(logs: Logs, id: Id): Log {
    if id in logs then logs[id] else []
  }

  ghost predicate LinkedSends(base: u32, sent: seq<Sent>, suppressed: bool, logs: Logs) {
    forall i | 0 <= i < |sent| ::
      MustLink(sent, i, suppressed, logs) ==> sent[i].block.1.parent == SentBefore(base, sent, i)
  }

  ghost predicate MustLink(sent: seq<Sent>, i: nat, suppressed: bool, logs: Logs)
    requires i < |sent|
  {
    sent[i].replayed || (i > 0 && !suppressed && Linked(LogIn(logs, sent[i].from)))
  }

  ghost predicate EndsAt(log: Log, round: u32) {
    Linked(log) ==> log != [] && log[|log| - 1].0 == round
  }

  // The round sent just before the `i`th block.
  function SentBefore(base: u32, sent: seq<Sent>, i: nat): u32
    requires i <= |sent|
  {
    if i == 0 then base else sent[i - 1].block.0
  }

  // Lag and preferred switches wait out the dwell, a priority active yields to a pool peer only for a
  // stall or its death, and every target had just been verified.
  ghost predicate RulesHold(switches: seq<SwitchRecord>, logs: Logs, sent: seq<Sent>,
                            lastSwitch: Option<Time>, minDwell: nat) {
    && lastSwitch == (if switches == [] then None else Some(switches[|switches| - 1].at))
    && (forall i | 0 < i < |switches| && (switches[i].reason.Lag? || switches[i].reason.Preferred?) ::
          Elapsed(switches[i].at, switches[i - 1].at) >= minDwell)
    && (forall i | 0 <= i < |switches| && switches[i].fromPreferred && !switches[i].toPreferred ::
          switches[i].reason.Stall? || switches[i].reason.ActiveDead?)
    && AllVerified(switches, logs, sent)
  }

  ghost predicate AllVerified(switches: seq<SwitchRecord>, logs: Logs, sent: seq<Sent>) {
    forall i | 0 <= i < |switches| ::
      switches[i].to in logs && GoodEvidence(switches[i].evidence, logs[switches[i].to], sent)
  }

  // Three matching comparisons, each of a block the standby delivered with one the node was sent.
  ghost predicate GoodEvidence(c: seq<Comparison>, log: Log, sent: seq<Sent>) {
    |c| == MIN_VERIFIED && AllTruthful(c, log, sent) && forall i | 0 <= i < |c| :: c[i].Matched()
  }

  datatype Config = Config(
    ip: string, preferred: bool, lastForwarded: u32, now: Time, stall: nat, lag: nat, minDwell: nat)

  function Start(c: Config): World {
    World(NewSession(c.ip, c.preferred, c.lastForwarded, c.now, c.stall, c.lag, c.minDwell),
          c.lastForwarded, [], map[0 := []], map[0 := []], [], false)
  }

  // ---- a block from the active ----

  lemma {:induction false} BooksActiveBlock(w: World, id: Id, b: Block, tip: u32, floor: u32)
    requires w.Ids() && Books(w.session.core, w.base, w.sent, w.logs, w.comps, {}) && id == w.session.core.active
    ensures var w' := w.OnBlock(id, b, tip, floor);
            Books(w'.session.core, w'.base, w'.sent, w'.logs, w'.comps, {})
  {
    var core, w' := w.session.core, w.OnBlock(id, b, tip, floor);
    BooksActiveLogged(core, w.base, w.sent, w.logs, w.comps, b);
    if w.session.ReachesCore(b.0, tip, floor) {
      BooksHeard(core, w.base, w.sent, w'.logs, w.comps, b.1.at);
      var after := core.OnActiveBlock(b.0, b.1.hash, b.1.at);
      if core.IsNew(b.0) {
        BooksForward(core.Heard(id, b.1.at), w.base, w.sent, w'.logs, w.comps, {}, Sent(b, id, false));
        BooksDropped(after, w.base, w'.sent, w'.logs, w'.comps, {}, core.Disagreeing(b.0, b.1.hash));
      } else {
        BooksDropped(after, w.base, w'.sent, w'.logs, w'.comps, {}, {});
      }
    }
  }

  // ---- a block from a standby ----

  lemma {:induction false} BooksStandbyBlock(w: World, id: Id, b: Block, tip: u32, floor: u32)
    requires w.Ids() && Books(w.session.core, w.base, w.sent, w.logs, w.comps, {})
    requires id in w.session.core.ups && id != w.session.core.active
    ensures var w' := w.OnBlock(id, b, tip, floor);
            Books(w'.session.core, w'.base, w'.sent, w'.logs, w'.comps, {})
  {
    var core, w' := w.session.core, w.OnBlock(id, b, tip, floor);
    if w.session.Acceptable(b.0, tip) {
      BooksStandby(core, w.base, w.sent, w.logs, w.comps, id, b);
      BooksDropped(core.OnStandbyBlock(id, b.0, b.1), w.base, w.sent, w'.logs, w'.comps, {}, {id});
    } else {
      BooksDropped(core, w.base, w.sent, w.logs, w.comps, {}, {id});
      BooksElsewhere(w'.session.core, w.base, w.sent, w.logs, w.comps, id, w.logs[id] + [b]);
    }
  }

  // The log of an upstream that is gone no longer matters to the books.
  lemma BooksElsewhere(core: CoreState, base: u32, sent: seq<Sent>, logs: Logs, comps: Comparisons, id: Id, log: Log)
    requires Books(core, base, sent, logs, comps, {}) && id !in core.ups
    ensures Books(core, base, sent, logs[id := log], comps, {})
  {
  }

  // ---- what a block event leaves alone ----

  ghost predicate SameFrame(s: Session, s': Session) {
    && s'.core.active == s.core.active && s.core.active in s'.core.ups
    && s'.core.ups.Keys <= s.core.ups.Keys
    && s'.core.lastSwitch == s.core.lastSwitch && s'.core.minDwell == s.core.minDwell
    && s'.nextId == s.nextId
  }

  lemma {:induction false} ActiveFrame(s: Session, b: Block, tip: u32, floor: u32)
    requires s.core.active in s.core.ups
    ensures var s' := s.OnActiveBlock(b, tip, floor);
            && SameFrame(s, s')
            && s'.core.lastForwarded ==
                 (if s.SendsBlock(s.core.active, b.0, tip, floor) then b.0 else s.core.lastForwarded)
  {
  }

  lemma {:induction false} StandbyFrame(s: Session, id: Id, b: Block, tip: u32)
    requires s.core.active in s.core.ups && id in s.core.ups && id != s.core.active
    ensures var s' := s.OnStandbyBlock(id, b, tip);
            && SameFrame(s, s')
            && s'.core.lastForwarded == s.core.lastForwarded && s'.activeDead == s.activeDead
  {
  }

  lemma LinkedPrefix(log: Log, b: Block)
    requires Linked(log + [b])
    ensures Linked(log)
    ensures log != [] ==> b.0 > log[|log| - 1].0 && b.1.parent == log[|log| - 1].0
  {
    var more := log + [b];
    forall i | 0 < i < |log| ensures log[i].0 > log[i - 1].0 && log[i].1.parent == log[i - 1].0 {
      assert more[i] == log[i] && more[i - 1] == log[i - 1];
    }
    if log != [] {
      assert more[|log|] == b && more[|log| - 1] == log[|log| - 1];
    }
  }

  // Logs only grow.
  ghost predicate LogsGrow(logs: Logs, logs': Logs) {
    forall id | id in logs :: id in logs' && logs[id] <= logs'[id]
  }

  lemma VerifiedLater(switches: seq<SwitchRecord>, logs: Logs, logs': Logs, sent: seq<Sent>, more: seq<Sent>)
    requires AllVerified(switches, logs, sent) && LogsGrow(logs, logs')
    ensures AllVerified(switches, logs', sent + more)
  {
    forall i | 0 <= i < |switches|
      ensures switches[i].to in logs' && GoodEvidence(switches[i].evidence, logs'[switches[i].to], sent + more)
    {
      var log, log' := logs[switches[i].to], logs'[switches[i].to];
      TruthfulLater(switches[i].evidence, log, sent, log'[|log|..], more);
      assert log + log'[|log|..] == log';
    }
  }

  lemma LogGrows(logs: Logs, id: Id, b: Block)
    ensures LogsGrow(logs, logs[id := LogIn(logs, id) + [b]])
  {
  }

  lemma {:induction false} SeamAfterActive(w: World, b: Block, tip: u32, floor: u32)
    requires w.session.core.active in w.session.core.ups && w.Seam()
    ensures w.OnBlock(w.session.core.active, b, tip, floor).Seam()
  {
    ActiveFrame(w.session, b, tip, floor);
    var log := w.LogOf(w.session.core.active);
    if Linked(log + [b]) {
      LinkedPrefix(log, b);
    }
  }

  lemma LinksLogged(base: u32, sent: seq<Sent>, suppressed: bool, logs: Logs, id: Id, b: Block)
    requires LinkedSends(base, sent, suppressed, logs)
    ensures LinkedSends(base, sent, suppressed, logs[id := LogIn(logs, id) + [b]])
  {
    var logs' := logs[id := LogIn(logs, id) + [b]];
    forall i | 0 <= i < |sent| && MustLink(sent, i, suppressed, logs')
      ensures sent[i].block.1.parent == SentBefore(base, sent, i)
    {
      if sent[i].from == id && !sent[i].replayed {
        LinkedPrefix(LogIn(logs, id), b);
      }
      assert MustLink(sent, i, suppressed, logs);
    }
  }

  lemma LinksSent(base: u32, sent: seq<Sent>, suppressed: bool, logs: Logs, s: Sent)
    requires LinkedSends(base, sent, suppressed, logs)
    requires s.replayed || (sent != [] && !suppressed && Linked(LogIn(logs, s.from)))
             ==> s.block.1.parent == SentBefore(base, sent, |sent|)
    ensures LinkedSends(base, sent + [s], suppressed, logs)
  {
    forall i | 0 <= i < |sent + [s]| && MustLink(sent + [s], i, suppressed, logs)
      ensures (sent + [s])[i].block.1.parent == SentBefore(base, sent + [s], i)
    {
      if i < |sent| {
        assert MustLink(sent, i, suppressed, logs);
      }
    }
  }

  lemma LastSent(core: CoreState, base: u32, sent: seq<Sent>)
    requires StreamBooks(core, base, sent)
    ensures core.lastForwarded == SentBefore(base, sent, |sent|)
  {
  }

  // The active's next block, if linked, names the node's newest block as its parent.
  lemma {:induction false} LinksAfterActive(w: World, b: Block, tip: u32, floor: u32)
    requires w.session.core.active in w.session.core.ups && w.Seam() && w.Links()
    requires StreamBooks(w.session.core, w.base, w.sent)
    ensures w.OnBlock(w.session.core.active, b, tip, floor).Links()
  {
    var id, w' := w.session.core.active, w.OnBlock(w.session.core.active, b, tip, floor);
    LinksLogged(w.base, w.sent, w.suppressed, w.logs, id, b);
    if w.session.SendsBlock(id, b.0, tip, floor) {
      if Linked(w.LogOf(id) + [b]) {
        LinkedPrefix(w.LogOf(id), b);
      }
      LastSent(w.session.core, w.base, w.sent);
      LinksSent(w.base, w.sent, w.suppressed, w'.logs, Sent(b, id, false));
    }
  }

  lemma {:induction false} SeamAfterStandby(w: World, id: Id, b: Block, tip: u32, floor: u32)
    requires w.session.core.active in w.session.core.ups && w.Seam()
    requires id in w.session.core.ups && id != w.session.core.active
    ensures w.OnBlock(id, b, tip, floor).Seam()
  {
    StandbyFrame(w.session, id, b, tip);
  }

  lemma {:induction false} ActiveBlockKeepsInv(w: World, b: Block, tip: u32, floor: u32)
    requires w.Inv()
    ensures w.OnBlock(w.session.core.active, b, tip, floor).Inv()
  {
    var id := w.session.core.active;
    IdsAfterBlock(w, id, b, tip, floor);
    BooksActiveBlock(w, id, b, tip, floor);
    SeamAfterActive(w, b, tip, floor);
    LinksAfterActive(w, b, tip, floor);
    RulesAfterBlock(w, id, b, tip, floor);
  }

  lemma {:induction false} IdsAfterBlock(w: World, id: Id, b: Block, tip: u32, floor: u32)
    requires w.Ids() && id in w.session.core.ups
    ensures w.OnBlock(id, b, tip, floor).Ids()
  {
    if id == w.session.core.active {
      ActiveFrame(w.session, b, tip, floor);
    } else {
      StandbyFrame(w.session, id, b, tip);
    }
  }

  lemma {:induction false} RulesAfterBlock(w: World, id: Id, b: Block, tip: u32, floor: u32)
    requires id in w.session.core.ups && w.session.core.active in w.session.core.ups && w.SwitchRules()
    ensures w.OnBlock(id, b, tip, floor).SwitchRules()
  {
    LogGrows(w.logs, id, b);
    VerifiedLater(w.switches, w.logs, w.logs[id := w.LogOf(id) + [b]], w.sent, []);
    VerifiedLater(w.switches, w.logs, w.logs[id := w.LogOf(id) + [b]], w.sent, [Sent(b, id, false)]);
    assert w.sent + [] == w.sent;
    if id == w.session.core.active {
      ActiveFrame(w.session, b, tip, floor);
    } else {
      StandbyFrame(w.session, id, b, tip);
    }
  }

  lemma {:induction false} StandbyBlockKeepsInv(w: World, id: Id, b: Block, tip: u32, floor: u32)
    requires w.Inv() && id in w.session.core.ups && id != w.session.core.active
    ensures w.OnBlock(id, b, tip, floor).Inv()
  {
    IdsAfterBlock(w, id, b, tip, floor);
    BooksStandbyBlock(w, id, b, tip, floor);
    SeamAfterStandby(w, id, b, tip, floor);
    LinksLogged(w.base, w.sent, w.suppressed, w.logs, id, b);
    RulesAfterBlock(w, id, b, tip, floor);
  }

  // ---- upstreams coming and going ----

  lemma LinksFresh(base: u32, sent: seq<Sent>, suppressed: bool, logs: Logs, id: Id)
    requires LinkedSends(base, sent, suppressed, logs) && id !in logs
    ensures LinkedSends(base, sent, suppressed, logs[id := []])
  {
    forall i | 0 <= i < |sent| && MustLink(sent, i, suppressed, logs[id := []])
      ensures sent[i].block.1.parent == SentBefore(base, sent, i)
    {
      assert MustLink(sent, i, suppressed, logs);
    }
  }

  lemma {:induction false} BooksAfterJoin(w: World, ip: string, preferred: bool)
    requires Books(w.session.core, w.base, w.sent, w.logs, w.comps, {})
    ensures var w' := w.Join(ip, preferred); Books(w'.session.core, w'.base, w'.sent, w'.logs, w'.comps, {})
  {
    var u := NewUpstream(ip).(preferred := preferred);
    NewcomerBooks(u, w.sent, w.session.core.lastForwarded);
    BooksWith(w.session.core, w.base, w.sent, w.logs, w.comps, w.session.nextId, u, [], []);
  }

  lemma {:induction false} RulesAfterJoin(w: World, ip: string, preferred: bool)
    requires w.Ids() && w.SwitchRules() && w.Seam()
    ensures w.Join(ip, preferred).SwitchRules() && w.Join(ip, preferred).Seam()
  {
    VerifiedLater(w.switches, w.logs, w.logs[w.session.nextId := []], w.sent, []);
    assert w.sent + [] == w.sent;
  }

  lemma JoinKeepsInv(w: World, ip: string, preferred: bool)
    requires w.Inv()
    ensures w.Next(Joins(ip, preferred)).Inv()
  {
    IdsAfterJoin(w, ip, preferred);
    BooksAfterJoin(w, ip, preferred);
    RulesAfterJoin(w, ip, preferred);
    LinksFresh(w.base, w.sent, w.suppressed, w.logs, w.session.nextId);
  }

  lemma {:induction false} IdsAfterJoin(w: World, ip: string, preferred: bool)
    requires w.Ids()
    ensures w.Join(ip, preferred).Ids()
  {
  }

  lemma NewcomerBooks(u: UpstreamState, sent: seq<Sent>, last: u32)
    requires u == NewUpstream(u.ip).(preferred := u.preferred)
    ensures UpstreamBooks(u, [], [], sent) && Ledger(u.ahead, u.droppedMax, [], last)
  {
  }

  lemma LeaveKeepsInv(w: World, id: Id)
    requires w.Inv()
    ensures w.Next(Leaves(id)).Inv()
  {
    if id != w.session.core.active {
      BooksDropped(w.session.core, w.base, w.sent, w.logs, w.comps, {}, {id});
      DropKeepsRest(w, id);
    }
  }

  lemma DropKeepsRest(w: World, id: Id)
    requires w.Ids() && w.Seam() && w.Links() && w.SwitchRules() && id != w.session.core.active
    ensures var w' := w.(session := w.session.Leave(id)); w'.Ids() && w'.Seam() && w'.Links() && w'.SwitchRules()
  {
  }

  // ---- the switch ----

  lemma {:induction false} ReplayFrame(s: CoreState, blocks: seq<Block>, n: nat)
    requires n <= |blocks|
    ensures var s' := s.Replayed(blocks, n);
            && s'.active == s.active && s'.ups.Keys == s.ups.Keys
            && s'.lastSwitch == s.lastSwitch && s'.minDwell == s.minDwell
            && (s.active in s.ups ==> s'.ups[s.active] == s.ups[s.active])
  {
    if n > 0 {
      ReplayFrame(s, blocks, n - 1);
    }
  }

  // No replayed block speaks against the upstream it comes from.
  lemma ReplaySparesActive(s: CoreState, blocks: seq<Block>, n: nat)
    requires n <= |blocks|
    ensures forall b | b in s.ReplayDisagreeing(blocks, n) :: b.0 != s.active
  {
    forall k | 0 <= k < n ensures s.active !in s.ReportsAt(blocks, k) {
      ReplayFrame(s, blocks, k);
    }
  }

  lemma {:induction false} SwitchFrame(s: Session, id: Id, now: Time)
    requires s.core.CanSwitchTo(id) && id != s.core.active
    ensures var s' := s.Switch(id, now);
            && s'.core.active == id && id in s'.core.ups
            && s'.core.ups.Keys <= s.core.ups.Keys
            && s'.core.lastSwitch == Some(now) && s'.core.minDwell == s.core.minDwell
            && s'.nextId == s.nextId && !s'.activeDead
            && s'.core.lastForwarded == s.core.SwitchTo(id, now).lastForwarded
            && s.core.active !in s'.core.ups
  {
    var taken, blocks := s.core.TakenOver(id, now), s.core.ReplayBlocks(id);
    ReplayFrame(taken, blocks, |blocks|);
    ReplaySparesActive(taken, blocks, |blocks|);
    SwitchKeys(s, id, now);
  }

  lemma {:induction false} SwitchKeys(s: Session, id: Id, now: Time)
    requires s.core.CanSwitchTo(id) && id != s.core.active
    ensures var blocks := s.core.ReplayBlocks(id);
            var bad := set b | b in s.core.TakenOver(id, now).ReplayDisagreeing(blocks, |blocks|) :: b.0;
            s.Switch(id, now).core.ups.Keys == s.core.ups.Keys - ({s.core.active} + bad)
  {
    ReplayFrame(s.core.TakenOver(id, now), s.core.ReplayBlocks(id), |s.core.ReplayBlocks(id)|);
  }

  lemma {:induction false} BooksAfterSwitch(w: World, now: Time, id: Id, reason: SwitchReason)
    requires Books(w.session.core, w.base, w.sent, w.logs, w.comps, {})
    requires w.session.core.CanSwitchTo(id) && id != w.session.core.active
    ensures var w' := w.Switch(now, id, reason);
            Books(w'.session.core, w'.base, w'.sent, w'.logs, w'.comps, {})
  {
    var core := w.session.core;
    var blocks := core.ReplayBlocks(id);
    var bad := set b | b in core.TakenOver(id, now).ReplayDisagreeing(blocks, |blocks|) :: b.0;
    BooksSwitched(core, w.base, w.sent, w.logs, w.comps, id, now, {core.active} + bad);
  }

  // The node's last round after a switch is that of the last replayed block.
  lemma {:induction false} LastReplayed(w: World, now: Time, id: Id, reason: SwitchReason)
    requires w.session.core.CanSwitchTo(id) && id != w.session.core.active
    ensures var blocks := w.session.core.ReplayBlocks(id);
            blocks != [] && w.Switch(now, id, reason).session.core.lastForwarded == blocks[|blocks| - 1].0
  {
    SwitchFrame(w.session, id, now);
    ReplayedLast(w.session.core.TakenOver(id, now), w.session.core.ReplayBlocks(id), |w.session.core.ReplayBlocks(id)|);
  }

  // A switch to a linked standby leaves nothing behind: its newest block is the node's newest block.
  lemma {:induction false} SwitchEndsAtNewest(w: World, now: Time, id: Id, reason: SwitchReason)
    requires w.session.core.CanSwitchTo(id) && id != w.session.core.active && id in w.logs
    requires var u := w.session.core.ups[id];
             Ledger(u.ahead, u.droppedMax, w.logs[id], w.session.core.lastForwarded) && FromLog(u.ahead, w.logs[id])
    ensures EndsAt(w.logs[id], w.Switch(now, id, reason).session.core.lastForwarded)
  {
    LastReplayed(w, now, id, reason);
    ReplayEndsAtNewest(w.session.core, w.logs[id], id);
  }

  lemma ReplayEndsAtNewest(core: CoreState, log: Log, id: Id)
    requires core.CanSwitchTo(id) && FromLog(core.ups[id].ahead, log)
    requires Ledger(core.ups[id].ahead, core.ups[id].droppedMax, log, core.lastForwarded)
    ensures var blocks := core.ReplayBlocks(id); EndsAt(log, blocks[|blocks| - 1].0)
  {
    if Linked(log) {
      SwitchReplaysTail(core.ups[id], log, core.lastForwarded);
    }
  }

  lemma {:induction false} SeamAfterSwitch(w: World, now: Time, id: Id, reason: SwitchReason)
    requires Books(w.session.core, w.base, w.sent, w.logs, w.comps, {})
    requires w.session.core.CanSwitchTo(id) && id != w.session.core.active
    ensures w.Switch(now, id, reason).Seam()
  {
    SwitchFrame(w.session, id, now);
    SwitchEndsAtNewest(w, now, id, reason);
  }

  lemma LinksReplayed(base: u32, sent: seq<Sent>, suppressed: bool, logs: Logs,
                      blocks: seq<Block>, from: Id, last: u32)
    requires LinkedSends(base, sent, suppressed, logs) && last == SentBefore(base, sent, |sent|)
    requires forall i | 0 <= i < |blocks| :: blocks[i].1.parent == ([last] + BlockRounds(blocks))[i]
    ensures LinkedSends(base, sent + SentAs(blocks, from), suppressed, logs)
  {
    var sent' := sent + SentAs(blocks, from);
    forall i | 0 <= i < |sent'| && MustLink(sent', i, suppressed, logs)
      ensures sent'[i].block.1.parent == SentBefore(base, sent', i)
    {
      if i < |sent| {
        assert MustLink(sent, i, suppressed, logs);
      } else {
        var j := i - |sent|;
        assert sent'[i].block == blocks[j];
        assert blocks[j].1.parent == if j == 0 then last else blocks[j - 1].0;
      }
    }
  }

  lemma {:induction false} LinksAfterSwitch(w: World, now: Time, id: Id, reason: SwitchReason)
    requires Books(w.session.core, w.base, w.sent, w.logs, w.comps, {}) && w.Links()
    requires w.session.core.CanSwitchTo(id) && id != w.session.core.active
    ensures w.Switch(now, id, reason).Links()
  {
    var core := w.session.core;
    LastSent(core, w.base, w.sent);
    ReplayClimbs(core, w.base, w.sent, w.logs, w.comps, id);
    LinksReplayed(w.base, w.sent, w.suppressed, w.logs, core.ReplayBlocks(id), id, core.lastForwarded);
  }

  // A verified standby's last three comparisons matched, on blocks it delivered and the node was sent.
  lemma EvidenceIsGood(w: World, id: Id)
    requires id in w.session.core.ups && id in w.logs && id in w.comps
    requires UpstreamBooks(w.session.core.ups[id], w.logs[id], w.comps[id], w.sent)
    requires w.session.core.ups[id].verified >= MIN_VERIFIED
    ensures GoodEvidence(w.Evidence(id), w.logs[id], w.sent)
  {
    var c := w.comps[id];
    TrailingMatchesMeans(c, MIN_VERIFIED);
    var e := w.Evidence(id);
    forall i | 0 <= i < |e| ensures e[i].Matched() && Truthful(e[i], w.logs[id], w.sent) {
      assert e[i] == c[|c| - MIN_VERIFIED + i];
    }
  }

  // What a pick guarantees about its target and its timing.
  lemma PickRules(core: CoreState, now: Time, activeDead: bool, id: Id, reason: SwitchReason)
    requires core.Picks(now, activeDead, Some((id, reason)))
    ensures core.Candidate(id) && core.CanSwitchTo(id)
    ensures |core.ReplayBlocks(id)| == core.ups[id].ChainLen(core.lastForwarded).0 > 0
    ensures reason.Stall? || reason.ActiveDead? ==> core.BestStall(id, now, activeDead)
    ensures reason.Lag? || reason.Preferred? ==> core.DwellOver(now)
    ensures core.ActivePreferred() && !core.ups[id].preferred ==> reason.Stall? || reason.ActiveDead?
  {
  }

  lemma RulesOneMore(switches: seq<SwitchRecord>, logs: Logs, sent: seq<Sent>, lastSwitch: Option<Time>,
                     minDwell: nat, r: SwitchRecord)
    requires RulesHold(switches, logs, sent, lastSwitch, minDwell)
    requires r.reason.Lag? || r.reason.Preferred? ==> lastSwitch.None? || Elapsed(r.at, lastSwitch.value) >= minDwell
    requires r.fromPreferred && !r.toPreferred ==> r.reason.Stall? || r.reason.ActiveDead?
    requires r.to in logs && GoodEvidence(r.evidence, logs[r.to], sent)
    ensures RulesHold(switches + [r], logs, sent, Some(r.at), minDwell)
  {
  }

  // What the rules ask of a switch to `id`.
  ghost predicate RulesAllow(core: CoreState, now: Time, id: Id, reason: SwitchReason) {
    && core.Candidate(id)
    && (reason.Lag? || reason.Preferred? ==> core.DwellOver(now))
    && (core.ActivePreferred() && !core.ups[id].preferred ==> reason.Stall? || reason.ActiveDead?)
  }

  lemma {:induction false} RulesAfterSwitch(w: World, now: Time, id: Id, reason: SwitchReason)
    requires Books(w.session.core, w.base, w.sent, w.logs, w.comps, {}) && w.SwitchRules()
    requires RulesAllow(w.session.core, now, id, reason)
    ensures w.Switch(now, id, reason).SwitchRules()
  {
    var core := w.session.core;
    SwitchFrame(w.session, id, now);
    EvidenceIsGood(w, id);
    var r := SwitchRecord(now, id, reason, core.ActivePreferred(), core.ups[id].preferred, w.Evidence(id));
    RulesOneMore(w.switches, w.logs, w.sent, core.lastSwitch, core.minDwell, r);
    RulesSentMore(w.switches + [r], w.logs, w.sent, SentAs(core.ReplayBlocks(id), id), Some(now), core.minDwell);
  }

  lemma RulesSentMore(switches: seq<SwitchRecord>, logs: Logs, sent: seq<Sent>, more: seq<Sent>,
                      lastSwitch: Option<Time>, minDwell: nat)
    requires RulesHold(switches, logs, sent, lastSwitch, minDwell)
    ensures RulesHold(switches, logs, sent + more, lastSwitch, minDwell)
  {
    VerifiedLater(switches, logs, logs, sent, more);
  }

  lemma {:induction false} SwitchKeepsInv(w: World, now: Time, id: Id, reason: SwitchReason)
    requires w.Inv() && w.session.core.Picks(now, w.session.activeDead, Some((id, reason)))
    requires w.session.core.CanSwitchTo(id)
    ensures w.Switch(now, id, reason).Inv()
  {
    PickRules(w.session.core, now, w.session.activeDead, id, reason);
    SwitchFrame(w.session, id, now);
    BooksAfterSwitch(w, now, id, reason);
    SeamAfterSwitch(w, now, id, reason);
    LinksAfterSwitch(w, now, id, reason);
    RulesAfterSwitch(w, now, id, reason);
    IdsAfterSwitch(w, now, id, reason);
  }

  lemma {:induction false} IdsAfterSwitch(w: World, now: Time, id: Id, reason: SwitchReason)
    requires w.Ids() && w.session.core.CanSwitchTo(id) && id != w.session.core.active
    ensures w.Switch(now, id, reason).Ids()
  {
    SwitchFrame(w.session, id, now);
    var blocks := w.session.core.ReplayBlocks(id);
    ReplayKeepsKeys(w.session.core.TakenOver(id, now), w.comps, blocks, |blocks|);
  }

  lemma {:induction false} ReplayKeepsKeys(s: CoreState, comps: Comparisons, blocks: seq<Block>, n: nat)
    requires n <= |blocks|
    ensures ReplayComparisons(s, comps, blocks, n).Keys == comps.Keys
  {
    if n > 0 {
      ReplayKeepsKeys(s, comps, blocks, n - 1);
    }
  }

  // ---- whole runs ----

  lemma StartInv(c: Config)
    ensures Start(c).Inv()
  {
    NewcomerBooks(Start(c).session.core.ups[0], [], c.lastForwarded);
  }

  lemma BlockKeepsInv(w: World, id: Id, b: Block, tip: u32, floor: u32)
    requires w.Inv()
    ensures w.Next(BlockFrom(id, b, tip, floor)).Inv()
  {
    if id in w.session.core.ups {
      if id == w.session.core.active {
        ActiveBlockKeepsInv(w, b, tip, floor);
      } else {
        StandbyBlockKeepsInv(w, id, b, tip, floor);
      }
    }
  }

  lemma TickKeepsInv(w: World, now: Time, pick: Option<(Id, SwitchReason)>)
    requires w.Inv() && w.session.core.Picks(now, w.session.activeDead, pick)
    ensures w.Next(Tick(now, pick)).Inv()
  {
    if pick.Some? && w.session.core.CanSwitchTo(pick.value.0) {
      var id, reason := pick.value.0, pick.value.1;
      assert pick == Some((id, reason));
      TickSwitches(w, now, id, reason);
      SwitchKeepsInv(w, now, id, reason);
    }
  }

  lemma StepKeepsInv(w: World, e: Event)
    requires w.Inv() && w.Enabled(e)
    ensures w.Next(e).Inv()
  {
    match e
    case BlockFrom(id, b, tip, floor) => BlockKeepsInv(w, id, b, tip, floor);
    case Joins(ip, preferred) => JoinKeepsInv(w, ip, preferred);
    case Leaves(id) => LeaveKeepsInv(w, id);
    case Tick(now, pick) => TickKeepsInv(w, now, pick);
  }

  ghost predicate CanRun(w: World, es: seq<Event>)
    decreases |es|
  {
    es == [] || (w.Enabled(es[0]) && CanRun(w.Next(es[0]), es[1..]))
  }

  function After(w: World, es: seq<Event>): World
    decreases |es|
  {
    if es == [] then w else After(w.Next(es[0]), es[1..])
  }

  lemma {:induction false} RunKeepsInv(w: World, es: seq<Event>)
    requires w.Inv() && CanRun(w, es)
    ensures After(w, es).Inv()
    decreases |es|
  {
    if es != [] {
      StepKeepsInv(w, es[0]);
      RunKeepsInv(w.Next(es[0]), es[1..]);
    }
  }

  // Some run from a fresh session ends in `w`.
  ghost predicate Reachable(w: World) {
    exists c: Config, es: seq<Event> :: CanRun(Start(c), es) && w == After(Start(c), es)
  }

  lemma ReachableInv(w: World)
    requires Reachable(w)
    ensures w.Inv()
  {
    var c: Config, es: seq<Event> :| CanRun(Start(c), es) && w == After(Start(c), es);
    StartInv(c);
    RunKeepsInv(Start(c), es);
  }

  // ---- theorems ----

  // In every reachable state, what a standby delivered above the node's last round is buffered or at
  // most its highest discarded round; what it buffers it delivered, above that round; and the
  // buffer is within both limits.
  lemma {:induction false} BufferLedger(w: World, id: Id)
    requires Reachable(w) && id in w.session.core.ups && id != w.session.core.active
    ensures id in w.logs
    ensures var u, last := w.session.core.ups[id], w.session.core.lastForwarded;
            && (forall b | b in w.logs[id] && b.0 > last :: b.0 in u.ahead || b.0 <= u.droppedMax)
            && (forall r | r in u.ahead :: r > last && (r, u.ahead[r]) in w.logs[id])
            && |u.ahead| <= AHEAD_KEEP && Bytes(u.ahead) <= AHEAD_BYTES
  {
    ReachableInv(w);
    assert UpstreamBooks(w.session.core.ups[id], w.logs[id], w.comps[id], w.sent);
  }

  // The rounds sent to the node strictly increase, and every replayed block names the round sent
  // just before it as its parent.
  lemma NodeStream(w: World)
    requires Reachable(w)
    ensures StrictlyIncreasing([w.base] + SentRounds(w.sent))
    ensures forall i | 0 <= i < |w.sent| && w.sent[i].replayed ::
              w.sent[i].block.1.parent == SentBefore(w.base, w.sent, i)
  {
    ReachableInv(w);
    forall i | 0 <= i < |w.sent| && w.sent[i].replayed
      ensures w.sent[i].block.1.parent == SentBefore(w.base, w.sent, i)
    {
      assert MustLink(w.sent, i, w.suppressed, w.logs);
    }
  }

  // If every upstream's stream is linked and the floor held nothing back, the node's whole stream is
  // one linked chain, across any number of switches.
  lemma OneChain(w: World)
    requires Reachable(w) && !w.suppressed
    requires forall i | 0 <= i < |w.sent| :: Linked(w.LogOf(w.sent[i].from))
    ensures forall i | 0 < i < |w.sent| :: w.sent[i].block.1.parent == w.sent[i - 1].block.0
  {
    ReachableInv(w);
    forall i | 0 < i < |w.sent| ensures w.sent[i].block.1.parent == w.sent[i - 1].block.0 {
      assert MustLink(w.sent, i, w.suppressed, w.logs);
    }
  }

  // A picked standby with a linked stream takes over seamlessly: the node is sent every block it
  // delivered above the node's last round, in order; its buffer is then empty; and its next block,
  // if the stream stays linked, names the node's last block as its parent.
  lemma {:induction false} SeamlessSwitch(w: World, now: Time, id: Id, reason: SwitchReason)
    requires Reachable(w) && w.Enabled(Tick(now, Some((id, reason))))
    requires Linked(w.LogOf(id))
    ensures w.session.core.CanSwitchTo(id)
    ensures w.Next(Tick(now, Some((id, reason)))) == w.Switch(now, id, reason)
    ensures w.Switch(now, id, reason).sent
            == w.sent + SentAs(AboveRound(w.LogOf(id), w.session.core.lastForwarded), id)
    ensures var core' := w.Switch(now, id, reason).session.core;
            && core'.active == id && id in core'.ups && core'.ups[id].ahead == map[]
            && forall b: Block | Linked(w.LogOf(id) + [b]) :: b.1.parent == core'.lastForwarded
  {
    ReachableInv(w);
    PickRules(w.session.core, now, w.session.activeDead, id, reason);
    TickSwitches(w, now, id, reason);
    SwitchIsSeamless(w, now, id, reason);
  }

  lemma {:induction false} TickSwitches(w: World, now: Time, id: Id, reason: SwitchReason)
    requires w.session.core.CanSwitchTo(id)
    ensures w.Next(Tick(now, Some((id, reason)))) == w.Switch(now, id, reason)
  {
    var pick := Some((id, reason));
    assert pick.value.0 == id && pick.value.1 == reason;
    assert w.Next(Tick(now, pick)) == w.OnPick(now, pick);
  }

  lemma {:induction false} SwitchIsSeamless(w: World, now: Time, id: Id, reason: SwitchReason)
    requires Books(w.session.core, w.base, w.sent, w.logs, w.comps, {})
    requires w.session.core.CanSwitchTo(id) && id != w.session.core.active && Linked(w.LogOf(id))
    ensures w.Switch(now, id, reason).sent
            == w.sent + SentAs(AboveRound(w.LogOf(id), w.session.core.lastForwarded), id)
    ensures var core' := w.Switch(now, id, reason).session.core;
            && core'.active == id && id in core'.ups && core'.ups[id].ahead == map[]
            && forall b: Block | Linked(w.LogOf(id) + [b]) :: b.1.parent == core'.lastForwarded
  {
    var core, log := w.session.core, w.LogOf(id);
    assert UpstreamBooks(core.ups[id], log, w.comps[id], w.sent);
    SwitchFrame(w.session, id, now);
    SwitchReplaysTail(core.ups[id], log, core.lastForwarded);
    SwitchEmptiesBuffer(w.session, log, now, id);
    SwitchEndsAtNewest(w, now, id, reason);
    NextContinues(log, w.Switch(now, id, reason).session.core.lastForwarded);
  }

  lemma NextContinues(log: Log, last: u32)
    requires EndsAt(log, last)
    ensures forall b: Block | Linked(log + [b]) :: b.1.parent == last
  {
    forall b: Block | Linked(log + [b]) ensures b.1.parent == last {
      LinkedPrefix(log, b);
    }
  }

  lemma {:induction false} SwitchEmptiesBuffer(s: Session, log: Log, now: Time, id: Id)
    requires s.core.CanSwitchTo(id) && id != s.core.active && Linked(log)
    requires Ledger(s.core.ups[id].ahead, s.core.ups[id].droppedMax, log, s.core.lastForwarded)
    requires FromLog(s.core.ups[id].ahead, log)
    ensures id in s.Switch(id, now).core.ups && s.Switch(id, now).core.ups[id].ahead == map[]
  {
    SwitchFrame(s, id, now);
    SwitchReplaysTail(s.core.ups[id], log, s.core.lastForwarded);
    ReplayFrame(s.core.TakenOver(id, now), s.core.ReplayBlocks(id), |s.core.ReplayBlocks(id)|);
  }

  // The rules every switch of a run kept.
  lemma SwitchDiscipline(w: World)
    requires Reachable(w)
    ensures forall i | 0 < i < |w.switches| && (w.switches[i].reason.Lag? || w.switches[i].reason.Preferred?) ::
              Elapsed(w.switches[i].at, w.switches[i - 1].at) >= w.session.core.minDwell
    ensures forall i | 0 <= i < |w.switches| && w.switches[i].fromPreferred && !w.switches[i].toPreferred ::
              w.switches[i].reason.Stall? || w.switches[i].reason.ActiveDead?
    ensures forall i | 0 <= i < |w.switches| ::
              GoodEvidence(w.switches[i].evidence, w.LogOf(w.switches[i].to), w.sent)
  {
    ReachableInv(w);
  }

  // A standby is dropped for a block it sends late exactly when that makes its last three comparisons
  // all differ...
  lemma ReportedOnBlock(w: World, id: Id, b: Block)
    requires Reachable(w) && id in w.session.core.ups && id != w.session.core.active
    ensures w.session.core.StandbyRejected(id, b.0, b.1.hash) <==>
            && StandbyComparison(w.session.core, w.ComparisonsOf(id), b) != w.ComparisonsOf(id)
            && LastAll(StandbyComparison(w.session.core, w.ComparisonsOf(id), b), MAX_MISMATCHES, false)
  {
    ReachableInv(w);
    var core := w.session.core;
    assert UpstreamBooks(core.ups[id], w.logs[id], w.comps[id], w.sent);
    if b.0 <= core.lastForwarded && b.0 in core.forwarded {
      RejectsMeans(core.ups[id], w.comps[id], Comparison(b.0, b.1.hash, core.forwarded[b.0].hash));
    }
  }

  // ...and for a buffered block, when the active delivers its round, likewise.
  lemma ReportedOnSettle(w: World, id: Id, round: u32, hash: Hash)
    requires Reachable(w) && id in w.session.core.ups && id != w.session.core.active
    ensures id in w.session.core.Disagreeing(round, hash) <==>
            && SettleComparison(w.session.core.ups[id], w.ComparisonsOf(id), round, hash) != w.ComparisonsOf(id)
            && LastAll(SettleComparison(w.session.core.ups[id], w.ComparisonsOf(id), round, hash), MAX_MISMATCHES, false)
  {
    ReachableInv(w);
    var u := w.session.core.ups[id];
    assert UpstreamBooks(u, w.logs[id], w.comps[id], w.sent);
    if round in u.ahead {
      RejectsMeans(u, w.comps[id], Comparison(round, u.ahead[round].hash, hash));
    }
  }

  // The `k`th block of a replay is the third in a row that differs from what `x` holds for its round.
  ghost predicate ThirdDifference(taken: CoreState, comps: Comparisons, blocks: seq<Block>, x: Id, k: nat)
    requires k < |blocks|
  {
    var before, c := taken.Replayed(blocks, k), ReplayComparisons(taken, comps, blocks, k);
    var (r, a) := blocks[k];
    && x in before.ups && x in c
    && r in before.ups[x].ahead
    && LastAll(SettleComparison(before.ups[x], c[x], r, a.hash), MAX_MISMATCHES, false)
  }

  // ...which is when settling that block reports `x`.
  lemma ReportedAtBlock(taken: CoreState, base: u32, sent: seq<Sent>, logs: Logs, comps: Comparisons,
                        exempt: set<Id>, blocks: seq<Block>, x: Id, k: nat)
    requires Books(taken, base, sent, logs, comps, exempt) && x != taken.active && k < |blocks|
    requires StrictlyIncreasing([taken.lastForwarded] + BlockRounds(blocks))
    ensures x in taken.ReportsAt(blocks, k) <==> ThirdDifference(taken, comps, blocks, x, k)
  {
    BooksReplayed(taken, base, sent, logs, comps, exempt, blocks, k, taken.active);
    ReplayFrame(taken, blocks, k);
    var before, c := taken.Replayed(blocks, k), ReplayComparisons(taken, comps, blocks, k);
    var (r, a) := blocks[k];
    if x in before.ups && r in before.ups[x].ahead {
      RejectsMeans(before.ups[x], c[x], Comparison(r, before.ups[x].ahead[r].hash, a.hash));
    }
  }

  lemma ReportedInReplay(core: CoreState, base: u32, sent: seq<Sent>, logs: Logs, comps: Comparisons,
                         now: Time, id: Id, x: Id)
    requires Books(core, base, sent, logs, comps, {}) && id in core.ups && id != core.active && x != id
    ensures var taken, blocks := core.TakenOver(id, now), core.ReplayBlocks(id);
            forall k | 0 <= k < |blocks| ::
              x in taken.ReportsAt(blocks, k) <==> ThirdDifference(taken, comps, blocks, x, k)
  {
    var taken, blocks := core.TakenOver(id, now), core.ReplayBlocks(id);
    BooksTakenOver(core, base, sent, logs, comps, id, now);
    ReplayClimbs(core, base, sent, logs, comps, id);
    forall k | 0 <= k < |blocks|
      ensures x in taken.ReportsAt(blocks, k) <==> ThirdDifference(taken, comps, blocks, x, k)
    {
      ReportedAtBlock(taken, base, sent, logs, comps, {core.active}, blocks, x, k);
    }
  }

  ghost predicate EverReported(taken: CoreState, blocks: seq<Block>, x: Id) {
    exists k :: 0 <= k < |blocks| && x in taken.ReportsAt(blocks, k)
  }

  ghost predicate EverThird(taken: CoreState, comps: Comparisons, blocks: seq<Block>, x: Id) {
    exists k :: 0 <= k < |blocks| && ThirdDifference(taken, comps, blocks, x, k)
  }

  // A switch drops the old active, and of the others exactly those for which some replayed block was
  // the third difference in a row.
  lemma {:induction false} ReportedOnReplay(w: World, now: Time, id: Id, reason: SwitchReason, x: Id)
    requires Reachable(w) && w.Enabled(Tick(now, Some((id, reason))))
    requires x in w.session.core.ups && x != id && x != w.session.core.active
    ensures w.session.core.CanSwitchTo(id)
    ensures x !in w.Switch(now, id, reason).session.core.ups
            <==> EverThird(w.session.core.TakenOver(id, now), w.comps, w.session.core.ReplayBlocks(id), x)
  {
    ReachableInv(w);
    PickRules(w.session.core, now, w.session.activeDead, id, reason);
    DroppedInReplay(w.session, w.base, w.sent, w.logs, w.comps, now, id, x);
  }

  lemma {:induction false} DroppedInReplay(s: Session, base: u32, sent: seq<Sent>, logs: Logs, comps: Comparisons,
                        now: Time, id: Id, x: Id)
    requires Books(s.core, base, sent, logs, comps, {}) && s.core.CanSwitchTo(id) && id != s.core.active
    requires x in s.core.ups && x != id && x != s.core.active
    ensures x !in s.Switch(id, now).core.ups
            <==> EverThird(s.core.TakenOver(id, now), comps, s.core.ReplayBlocks(id), x)
  {
    ReportedInReplay(s.core, base, sent, logs, comps, now, id, x);
    DroppedOnReplay(s, now, id, x);
  }

  // The switch step drops what the replay reported.
  lemma {:induction false} DroppedOnReplay(s: Session, now: Time, id: Id, x: Id)
    requires s.core.CanSwitchTo(id) && id != s.core.active
    requires x in s.core.ups && x != s.core.active
    ensures x !in s.Switch(id, now).core.ups
            <==> EverReported(s.core.TakenOver(id, now), s.core.ReplayBlocks(id), x)
  {
    SwitchKeys(s, id, now);
    ReportedEver(s.core.TakenOver(id, now), s.core.ReplayBlocks(id), x);
  }

  lemma ReportedEver(taken: CoreState, blocks: seq<Block>, x: Id)
    ensures x in (set b | b in taken.ReplayDisagreeing(blocks, |blocks|) :: b.0) <==> EverReported(taken, blocks, x)
  {
    if k :| 0 <= k < |blocks| && x in taken.ReportsAt(blocks, k) {
      assert (x, blocks[k].0) in taken.ReplayDisagreeing(blocks, |blocks|) && (x, blocks[k].0).0 == x;
    }
  }
}
