/**
 The guards that end a session whose stream falls behind the freshest round (`src/push/live.rs`,
 `BlockProgress::lagging`, `StalledBehind::check`), over whole runs: no single peer, however many
 streams it feeds and whatever rounds it sends, can make a session look late.
 */
module LagGuards {
  import opened Primitives
  import opened Rounds
  import opened Freshest

  function Behind(freshest: Option<u32>, own: u32): u32 {
    if freshest.None? then 0 else SatSub(freshest.value, own)
  }

  // ---- the lag guard ----

  // The stream is late now, by the guard's measure.
  predicate Late(own: u32, freshest: Option<u32>, lagRounds: u32, backedUp: bool) {
    own != 0 && !backedUp && Behind(freshest, own) > lagRounds
  }

  // When the guard's timer runs after a check.
  function LagSince(since: Option<Time>, late: bool, now: Time): Option<Time> {
    if !late then None else if since.Some? then since else Some(now)
  }

  // The check ends the session, with the timer at `since` before it.
  predicate LagFires(since: Option<Time>, late: bool, now: Time, grace: nat) {
    late && Elapsed(now, LagSince(since, late, now).value) >= grace
  }

  class BlockProgress {
    var lastRound: u32
    var at: Time
    var lagSince: Option<Time>

    constructor (lastRound: u32, now: Time)
      ensures View() == NewProgress(lastRound, now)
    {
      this.lastRound, at, lagSince := lastRound, now, None;
    }

    ghost function View(): Progress
      reads this
    {
      Progress(lastRound, at, lagSince)
    }

    method OnRound(round: u32, now: Time) returns (ok: bool)
      modifies this
      ensures ok == !old(View()).Jumps(round)
      ensures View() == if ok then old(View()).Reached(round, now) else old(View())
    {
      if lastRound != 0 && round > SatAdd(lastRound, MAX_ACTIVE_ROUND_JUMP) {
        return false;
      }
      if round > lastRound {
        lastRound, at := round, now;
      }
      return true;
    }

    method Lagging(freshest: FreshestRound, backedUp: bool, now: Time) returns (r: Option<u32>)
      modifies this
      ensures exists f :: IsReference(freshest.streams, freshest.netTip, freshest.stale, now, f)
                && var late := Late(old(lastRound), f, freshest.lagRounds, backedUp);
                   && View() == old(View()).(lagSince := LagSince(old(lagSince), late, now))
                   && (r.Some? <==> LagFires(old(lagSince), late, now, freshest.grace))
                   && (r.Some? ==> r.value == Behind(f, lastRound))
    {
      var f := freshest.Get(now);
      var behind := Behind(f, lastRound);
      if lastRound == 0 || backedUp || behind <= freshest.lagRounds {
        lagSince := None;
        return None;
      }
      if lagSince.None? {
        lagSince := Some(now);
      }
      return if Elapsed(now, lagSince.value) >= freshest.grace then Some(behind) else None;
    }
  }

  // ---- the stall guard ----

  // Since when, and from how far, the stream has been `rounds` behind.
  type Since = Option<(Time, u32)>

  predicate FarBehind(rounds: u32, own: u32, freshest: Option<u32>, backedUp: bool) {
    own != 0 && !backedUp && Behind(freshest, own) >= rounds
  }

  function StallSince(since: Since, far: bool, now: Time, behind: u32): Since {
    if !far then None else if since.Some? then since else Some((now, behind))
  }

  predicate StallFires(since: Since, far: bool, now: Time, behind: u32, grace: nat, widen: u32) {
    far && var (at, start) := StallSince(since, far, now, behind).value;
           Elapsed(now, at) >= grace && behind >= SatAdd(start, widen)
  }

  class StalledBehind {
    const rounds: u32
    const grace: nat
    const widen: u32
    var since: Since

    constructor (rounds: u32, grace: nat, widen: u32)
      ensures this.rounds == rounds && this.grace == grace && this.widen == widen && since == None
    {
      this.rounds, this.grace, this.widen, since := rounds, grace, widen, None;
    }

    method Check(own: u32, freshest: Option<u32>, backedUp: bool, now: Time) returns (r: Option<u32>)
      modifies this
      ensures var far, behind := FarBehind(rounds, own, freshest, backedUp), Behind(freshest, own);
              && since == StallSince(old(since), far, now, behind)
              && (r.Some? <==> StallFires(old(since), far, now, behind, grace, widen))
              && (r.Some? ==> r.value == behind)
    {
      var behind := Behind(freshest, own);
      if own == 0 || backedUp || behind < rounds {
        since := None;
        return None;
      }
      if since.None? {
        since := Some((now, behind));
      }
      var (at, start) := since.value;
      return if Elapsed(now, at) >= grace && behind >= SatAdd(start, widen) then Some(behind) else None;
    }
  }

  // ---- runs ----

  datatype Settings = Settings(lagRounds: u32, grace: nat, stale: nat, stallRounds: u32, stallGrace: nat, widen: u32)

  datatype Event =
    | FeedStarts(peer: string)
    | Offers(id: nat, round: u32, now: Time)
    | FeedEnds(id: nat)
    | TipMoves(tip: u32)
    | OwnRound(round: u32)
    | LagCheck(freshest: Option<u32>, backedUp: bool, now: Time)
    | StallCheck(freshest: Option<u32>, backedUp: bool, now: Time)

  // The table, the feeds that are open and what each peer ever offered; and one session: its highest
  // round, its highest offered round, its two guards' timers, the lag guard's checks, and whether
  // either guard ever ended it.
  datatype World = World(
    settings: Settings, streams: Streams, nextId: nat, netTip: u32,
    feeds: map<nat, string>, offers: seq<(string, u32)>,
    own: u32, fed: u32, lagSince: Option<Time>, stallSince: Since, lagChecks: Checks, ended: bool)
  {
    // A check reads the reference off the table.
    ghost predicate Enabled(e: Event) {
      match e
      case Offers(id, _, _) => id in feeds
      case LagCheck(r, _, now) => IsReference(streams, netTip, settings.stale, now, r)
      case StallCheck(r, _, now) => IsReference(streams, netTip, settings.stale, now, r)
      case _ => true
    }

    function Next(e: Event): World {
      match e
      case FeedStarts(peer) => this.(feeds := feeds[nextId := peer], nextId := nextId + 1)
      case Offers(id, round, now) =>
        if id !in feeds then this
        else
          this.(streams := Offered(streams, netTip, settings.stale, id, feeds[id], round, now),
                offers := offers + [(feeds[id], round)])
      case FeedEnds(id) => this.(streams := streams - {id}, feeds := feeds - {id})
      case TipMoves(tip) => this.(netTip := tip)
      case OwnRound(round) =>
        this.(own := if round > own then round else own, fed := if round > fed then round else fed)
      case LagCheck(r, backedUp, now) =>
        var late := Late(own, r, settings.lagRounds, backedUp);
        this.(lagSince := LagSince(lagSince, late, now), lagChecks := lagChecks + [(now, late)],
              ended := ended || LagFires(lagSince, late, now, settings.grace))
      case StallCheck(r, backedUp, now) =>
        var far, behind := FarBehind(settings.stallRounds, fed, r, backedUp), Behind(r, fed);
        this.(stallSince := StallSince(stallSince, far, now, behind),
              ended := ended || StallFires(stallSince, far, now, behind, settings.stallGrace, settings.widen))
    }

    // Every entry belongs to an open feed of its peer, at a round that peer offered; and the lag
    // guard's timer is what its checks make it.
    ghost predicate Inv() {
      && (forall id | id in feeds :: id < nextId)
      && (forall id | id in streams :: id in feeds && streams[id].peer == feeds[id]
                                       && (streams[id].peer, streams[id].round) in offers)
      && lagSince == TimerAfter(lagChecks)
    }

    // All peers but `bad` have stayed within `allowance` of the session's own rounds.
    ghost predicate KeepsUp(bad: string, allowance: u32) {
      forall o | o in offers && o.0 != bad :: o.1 <= own + allowance && (fed != 0 ==> o.1 <= fed + allowance)
    }
  }

  function Start(settings: Settings, netTip: u32, base: u32): World {
    World(settings, map[], 0, netTip, map[], [], base, 0, None, None, [], false)
  }

  lemma OfferKeepsInv(w: World, id: nat, round: u32, now: Time)
    requires w.Inv() && id in w.feeds
    ensures w.Next(Offers(id, round, now)).Inv()
  {
    var w' := w.Next(Offers(id, round, now));
    assert (w.offers + [(w.feeds[id], round)])[|w.offers|] == (w.feeds[id], round);
    forall i | i in w'.streams
      ensures i in w'.feeds && w'.streams[i].peer == w'.feeds[i]
              && (w'.streams[i].peer, w'.streams[i].round) in w'.offers
    {
      if i in w.streams && w'.streams[i] == w.streams[i] {
        assert (w.streams[i].peer, w.streams[i].round) in w.offers;
      }
    }
  }

  lemma StepKeepsInv(w: World, e: Event)
    requires w.Inv()
    ensures w.Next(e).Inv()
  {
    if e.Offers? && e.id in w.feeds {
      OfferKeepsInv(w, e.id, e.round, e.now);
    } else if e.LagCheck? {
      var late := Late(w.own, e.freshest, w.settings.lagRounds, e.backedUp);
      assert (w.lagChecks + [(e.now, late)])[..|w.lagChecks|] == w.lagChecks;
    }
  }

  ghost predicate CanRun(w: World, es: seq<Event>)
    decreases |es|
  {
    es == [] || (w.Enabled(es[0]) && CanRun(w.Next(es[0]), es[1..]))
  }

  function After(w: World, es: seq<Event>): World
    decreases |es|
  {
    if es == [] then w else After(w.Next(es[0]), es[1..])
  }

  // Whenever a guard checks, all peers but `bad` are within the allowance.
  ghost predicate AllKeepUp(w: World, es: seq<Event>, bad: string, allowance: u32)
    decreases |es|
  {
    es == [] || (&& (es[0].LagCheck? || es[0].StallCheck? ==> w.KeepsUp(bad, allowance))
                 && AllKeepUp(w.Next(es[0]), es[1..], bad, allowance))
  }

  // Two peers' word is needed: with all peers but one at most `bound`, so is the reference.
  lemma OnePeerCannotRaise(ss: Streams, tip: u32, maxAge: nat, now: Time, r: Option<u32>, bad: string, bound: int)
    requires IsReference(ss, tip, maxAge, now, r) && r.Some?
    requires forall i | i in ss && ss[i].peer != bad :: ss[i].round <= bound
    ensures r.value <= bound
  {
    var i, j :| i in ss && j in ss && ss[i].peer != ss[j].peer
                && Counts(ss[i], tip, maxAge, now) && Counts(ss[j], tip, maxAge, now)
                && ss[i].round >= r.value && ss[j].round >= r.value;
  }

  lemma ReferenceKeepsUp(w: World, bad: string, r: Option<u32>, now: Time, bound: int)
    requires w.Inv() && IsReference(w.streams, w.netTip, w.settings.stale, now, r) && r.Some?
    requires forall o | o in w.offers && o.0 != bad :: o.1 <= bound
    ensures r.value <= bound
  {
    forall i | i in w.streams && w.streams[i].peer != bad ensures w.streams[i].round <= bound {
      assert (w.streams[i].peer, w.streams[i].round) in w.offers;
    }
    OnePeerCannotRaise(w.streams, w.netTip, w.settings.stale, now, r, bad, bound);
  }

  // A check among peers that keep up neither fires nor starts a timer.
  lemma CheckPasses(w: World, e: Event, bad: string, allowance: u32)
    requires w.Inv() && w.Enabled(e) && !w.ended
    requires e.LagCheck? || e.StallCheck? ==> w.KeepsUp(bad, allowance)
    requires allowance <= w.settings.lagRounds && allowance < w.settings.stallRounds
    ensures !w.Next(e).ended
    ensures e.LagCheck? ==> w.Next(e).lagSince.None?
    ensures e.StallCheck? ==> w.Next(e).stallSince.None?
  {
    if e.LagCheck? && e.freshest.Some? {
      ReferenceKeepsUp(w, bad, e.freshest, e.now, w.own + allowance);
    } else if e.StallCheck? && e.freshest.Some? && w.fed != 0 {
      ReferenceKeepsUp(w, bad, e.freshest, e.now, w.fed + allowance);
    }
  }

  lemma {:induction false} NeverEnds(w: World, es: seq<Event>, bad: string, allowance: u32)
    requires w.Inv() && CanRun(w, es) && AllKeepUp(w, es, bad, allowance) && !w.ended
    requires allowance <= w.settings.lagRounds && allowance < w.settings.stallRounds
    ensures !After(w, es).ended
    decreases |es|
  {
    if es != [] {
      CheckPasses(w, es[0], bad, allowance);
      StepKeepsInv(w, es[0]);
      NeverEnds(w.Next(es[0]), es[1..], bad, allowance);
    }
  }

  // In every run in which, whenever a guard checks, all peers but one are within the allowance of the
  // session's own rounds, neither guard ever ends the session, whatever the remaining peer offers and
  // however many streams it feeds.
  lemma {:induction false} OnePeerCannotFrame(settings: Settings, netTip: u32, base: u32, es: seq<Event>,
                                              bad: string, allowance: u32)
    requires allowance <= settings.lagRounds && allowance < settings.stallRounds
    requires CanRun(Start(settings, netTip, base), es)
    requires AllKeepUp(Start(settings, netTip, base), es, bad, allowance)
    ensures !After(Start(settings, netTip, base), es).ended
  {
    NeverEnds(Start(settings, netTip, base), es, bad, allowance);
  }

  // ---- when the lag guard fires ----

  // Checks in order: when, and whether the stream was late.
  type Checks = seq<(Time, bool)>

  function TimerAfter(checks: Checks): Option<Time> {
    if checks == [] then None
    else
      var (now, late) := checks[|checks| - 1];
      LagSince(TimerAfter(checks[..|checks| - 1]), late, now)
  }

  // The unbroken stretch of late checks that ends with the last one begins at the `k`th.
  ghost predicate LateFrom(checks: Checks, k: nat) {
    && k < |checks|
    && (forall i | k <= i < |checks| :: checks[i].1)
    && (k == 0 || !checks[k - 1].1)
  }

  lemma {:induction false} TimerMeans(checks: Checks, k: nat)
    requires LateFrom(checks, k)
    ensures TimerAfter(checks) == Some(checks[k].0)
    decreases |checks|
  {
    var n := |checks| - 1;
    var before := checks[..n];
    if k < n {
      assert LateFrom(before, k);
      TimerMeans(before, k);
    } else {
      NoTimer(before);
    }
  }

  lemma {:induction false} NoTimer(checks: Checks)
    requires checks == [] || !checks[|checks| - 1].1
    ensures TimerAfter(checks) == None
  {
  }

  lemma {:induction false} StretchExists(checks: Checks) returns (k: nat)
    requires checks != [] && checks[|checks| - 1].1
    ensures LateFrom(checks, k)
    decreases |checks|
  {
    var n := |checks| - 1;
    if n == 0 || !checks[n - 1].1 {
      k := n;
    } else {
      var before := checks[..n];
      k := StretchExists(before);
      assert forall i | 0 <= i < n :: checks[i] == before[i];
    }
  }

  lemma {:induction false} RunKeepsInv(w: World, es: seq<Event>)
    requires w.Inv()
    ensures After(w, es).Inv()
    decreases |es|
  {
    if es != [] {
      StepKeepsInv(w, es[0]);
      RunKeepsInv(w.Next(es[0]), es[1..]);
    }
  }

  // In every state a run reaches, the lag guard fires at a check exactly if an unbroken stretch of
  // late checks, this one included, began at least the grace period ago.
  lemma {:induction false} LagFiresMeans(settings: Settings, netTip: u32, base: u32, es: seq<Event>,
                      r: Option<u32>, backedUp: bool, now: Time)
    ensures var w := After(Start(settings, netTip, base), es);
            var late := Late(w.own, r, w.settings.lagRounds, backedUp);
            LagFires(w.lagSince, late, now, w.settings.grace)
            <==> LateFor(w.Next(LagCheck(r, backedUp, now)).lagChecks, now, w.settings.grace)
  {
    RunKeepsInv(Start(settings, netTip, base), es);
    var w := After(Start(settings, netTip, base), es);
    FiresMeans(w.lagChecks, Late(w.own, r, w.settings.lagRounds, backedUp), now, w.settings.grace);
  }

  ghost predicate LateFor(checks: Checks, now: Time, grace: nat) {
    exists k: nat :: LateFrom(checks, k) && Elapsed(now, checks[k].0) >= grace
  }

  lemma {:induction false} FiresMeans(before: Checks, late: bool, now: Time, grace: nat)
    ensures LagFires(TimerAfter(before), late, now, grace) <==> LateFor(before + [(now, late)], now, grace)
  {
    var checks := before + [(now, late)];
    assert checks[..|before|] == before;
    assert TimerAfter(checks) == LagSince(TimerAfter(before), late, now);
    if late {
      var k := StretchExists(checks);
      TimerMeans(checks, k);
      forall j: nat | LateFrom(checks, j) ensures checks[j].0 == checks[k].0 {
        TimerMeans(checks, j);
      }
    }
  }

  // ---- the selection floor ----

  lemma WiderReaches(ss: Streams, tip: u32, age: nat, age': nat, now: Time, x: int)
    requires age <= age' && TwoReach(ss, tip, age, now, x)
    ensures TwoReach(ss, tip, age', now, x)
  {
    var i, j :| i in ss && j in ss && ss[i].peer != ss[j].peer
                && Counts(ss[i], tip, age, now) && Counts(ss[j], tip, age, now)
                && ss[i].round >= x && ss[j].round >= x;
    assert Counts(ss[i], tip, age', now) && Counts(ss[j], tip, age', now);
  }

  lemma LowerReaches(ss: Streams, tip: u32, age: nat, now: Time, x: int, y: int)
    requires y <= x && TwoReach(ss, tip, age, now, x)
    ensures TwoReach(ss, tip, age, now, y)
  {
    var i, j :| i in ss && j in ss && ss[i].peer != ss[j].peer
                && Counts(ss[i], tip, age, now) && Counts(ss[j], tip, age, now)
                && ss[i].round >= x && ss[j].round >= x;
    assert ss[i].round >= y && ss[j].round >= y;
  }

  // A new peer is never held to more than the guard itself would hold it to.
  lemma FloorWithinGuard(ss: Streams, tip: u32, stale: nat, grace: nat, lagRounds: u32, now: Time,
                         young: Option<u32>, all: Option<u32>)
    requires IsReference(ss, tip, SatSub(stale, grace), now, young) && IsReference(ss, tip, stale, now, all)
    ensures FloorOf(young, lagRounds) <= FloorOf(all, lagRounds)
    ensures young.Some? ==> all.Some? && young.value <= all.value
  {
    if young.Some? {
      WiderReaches(ss, tip, SatSub(stale, grace), stale, now, young.value);
      LowerReaches(ss, tip, stale, now, young.value, 0);
    }
  }

  // What happens to the table within a grace period: offers, and streams ending.
  datatype TableEvent = Offer(id: nat, peer: string, round: u32, now: Time) | End(id: nat)

  function TableNext(ss: Streams, tip: u32, stale: nat, e: TableEvent): Streams {
    match e
    case Offer(id, peer, round, now) => Offered(ss, tip, stale, id, peer, round, now)
    case End(id) => ss - {id}
  }

  function TableAfter(ss: Streams, tip: u32, stale: nat, es: seq<TableEvent>): Streams
    decreases |es|
  {
    if es == [] then ss else TableAfter(TableNext(ss, tip, stale, es[0]), tip, stale, es[1..])
  }

  // `i` is a stream of `peer` that has reached `x` and will still count at `until`.
  ghost predicate Lasts(ss: Streams, tip: u32, stale: nat, until: Time, i: nat, peer: string, x: int) {
    i in ss && ss[i].peer == peer && ss[i].round >= x && Counts(ss[i], tip, stale, until)
  }

  // An offer is made in the period; an end is not this stream's.
  predicate Spares(e: TableEvent, i: nat, from: Time, until: Time) {
    match e
    case Offer(_, _, _, now) => from <= now <= until
    case End(id) => id != i
  }

  ghost predicate AllSpare(es: seq<TableEvent>, i: nat, from: Time, until: Time) {
    forall k | 0 <= k < |es| :: Spares(es[k], i, from, until)
  }

  lemma LastsStep(ss: Streams, tip: u32, stale: nat, e: TableEvent,
                  i: nat, peer: string, x: int, from: Time, until: Time)
    requires until <= from + stale && Lasts(ss, tip, stale, until, i, peer, x) && Spares(e, i, from, until)
    ensures Lasts(TableNext(ss, tip, stale, e), tip, stale, until, i, peer, x)
  {
  }

  lemma {:induction false} LastsThrough(ss: Streams, tip: u32, stale: nat, es: seq<TableEvent>,
                                        i: nat, peer: string, x: int, from: Time, until: Time)
    requires until <= from + stale && Lasts(ss, tip, stale, until, i, peer, x) && AllSpare(es, i, from, until)
    ensures Lasts(TableAfter(ss, tip, stale, es), tip, stale, until, i, peer, x)
    decreases |es|
  {
    if es != [] {
      LastsStep(ss, tip, stale, es[0], i, peer, x, from, until);
      LastsThrough(TableNext(ss, tip, stale, es[0]), tip, stale, es[1..], i, peer, x, from, until);
    }
  }

  // The floor's reference stays good for the guard's grace: while no counted stream ends and the tip
  // stays, the reference at any moment of that period is at least the one the floor came from.
  lemma FloorHolds(ss: Streams, tip: u32, stale: nat, grace: nat, es: seq<TableEvent>, from: Time, until: Time,
                   young: Option<u32>, later: Option<u32>)
    requires grace <= stale && from <= until <= from + grace
    requires IsReference(ss, tip, stale - grace, from, young) && young.Some?
    requires forall i | i in ss && Counts(ss[i], tip, stale - grace, from) :: AllSpare(es, i, from, until)
    requires IsReference(TableAfter(ss, tip, stale, es), tip, stale, until, later)
    ensures later.Some? && later.value >= young.value
  {
    var x := young.value;
    var i, j :| i in ss && j in ss && ss[i].peer != ss[j].peer
                && Counts(ss[i], tip, stale - grace, from) && Counts(ss[j], tip, stale - grace, from)
                && ss[i].round >= x && ss[j].round >= x;
    LastsThrough(ss, tip, stale, es, i, ss[i].peer, x, from, until);
    LastsThrough(ss, tip, stale, es, j, ss[j].peer, x, from, until);
    var after := TableAfter(ss, tip, stale, es);
    assert TwoReach(after, tip, stale, until, x);
    LowerReaches(after, tip, stale, until, x, 0);
  }

  // The condition is exact: with a grace longer than the stale window, two peers that have just offered
  // a round set a floor, and one grace later, with nothing else happening, there is no reference.
  lemma {:induction false} FloorNeedsWindow(stale: nat, grace: nat, tip: u32)
    requires grace > stale && tip != 0
    ensures exists es: seq<TableEvent>, from: Time, young: u32 ::
              && IsReference(TableAfter(map[], tip, stale, es), tip, SatSub(stale, grace), from, Some(young))
              && IsReference(TableAfter(map[], tip, stale, es), tip, stale, from + grace, None)
  {
    var es := [Offer(0, "a", tip, 0), Offer(1, "b", tip, 0)];
    var ss: Streams := map[0 := Stream("a", tip, 0), 1 := Stream("b", tip, 0)];
    TwoOffers(stale, tip);
    assert ss[0].peer != ss[1].peer by {
      assert "a"[0] != "b"[0];
    }
    assert TwoReach(ss, tip, 0, 0, tip);
    assert IsReference(ss, tip, SatSub(stale, grace), 0, Some(tip));
    assert forall i | i in ss :: !Counts(ss[i], tip, stale, grace);
    assert IsReference(TableAfter(map[], tip, stale, es), tip, stale, 0 + grace, None);
  }

  lemma {:induction false} TwoOffers(stale: nat, tip: u32)
    requires tip != 0
    ensures TableAfter(map[], tip, stale, [Offer(0, "a", tip, 0), Offer(1, "b", tip, 0)])
         == map[0 := Stream("a", tip, 0), 1 := Stream("b", tip, 0)]
  {
    var es := [Offer(0, "a", tip, 0), Offer(1, "b", tip, 0)];
    var one: Streams := map[0 := Stream("a", tip, 0)];
    assert TableNext(map[], tip, stale, es[0]) == one;
    assert es[1..][0] == es[1] && es[1..][1..] == [];
    assert TableNext(one, tip, stale, es[1]) == one[1 := Stream("b", tip, 0)];
    assert TableAfter(one, tip, stale, es[1..]) == TableAfter(one[1 := Stream("b", tip, 0)], tip, stale, []);
  }
}
