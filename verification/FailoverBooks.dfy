/**
 What a failover run leaves behind, and how the core's state accounts for it: every block each
 upstream delivered, every block sent to the node, and every comparison made between the two.

 The central account is the ledger of a standby's bounded buffer: each delivered block above the
 node's last round is either buffered or at or below the highest round ever discarded for space.
 */
module FailoverBooks {
  import opened Primitives
  import opened FailoverUpstream
  import opened FailoverCore
  import opened FailoverSession

  // A standby's block for a round, against the block the node was sent for that round.
  datatype Comparison = Comparison(round: u32, own: Hash, forwarded: Hash) {
    predicate Matched() {
      own == forwarded
    }
  }

  datatype Sent = Sent(block: Block, from: Id, replayed: bool)

  type Log = seq<Block>

  // ---- the ledger of one buffer ----

  // What is buffered was delivered.
  ghost predicate FromLog(ahead: Buffer, log: Log) {
    forall r | r in ahead :: (r, ahead[r]) in log
  }

  // What was delivered above the node's last round is buffered, or within what was discarded.
  ghost predicate Ledger(ahead: Buffer, droppedMax: u32, log: Log, last: u32) {
    && (forall b | b in log && b.0 > last :: b.0 in ahead || b.0 <= droppedMax)
    && (forall r | r in ahead :: r > last)
  }

  // Buffering a delivered block, whatever the limits then discard, keeps the ledger.
  lemma LedgerInserted(u: UpstreamState, log: Log, last: u32, b: Block)
    requires Ledger(u.ahead, u.droppedMax, log, last) && b.0 > last
    ensures var u' := u.Inserted(b.0, b.1);
            Ledger(u'.ahead, u'.droppedMax, log + [b], last)
  {
    var full := u.ahead[b.0 := b.1];
    KeepLowestIsLower(full);
    var u' := u.Inserted(b.0, b.1);
    forall d | d in log + [b] && d.0 > last ensures d.0 in u'.ahead || d.0 <= u'.droppedMax {
      if d.0 in full && d.0 !in u'.ahead {
        assert d.0 <= MaxKey(full);
      }
    }
  }

  lemma FromLogInserted(u: UpstreamState, log: Log, b: Block)
    requires FromLog(u.ahead, log)
    ensures FromLog(u.Inserted(b.0, b.1).ahead, log + [b])
  {
    var full := u.ahead[b.0 := b.1];
    KeepLowestIsLower(full);
    forall r | r in KeepLowest(full) ensures (r, full[r]) in log + [b] {
      if r != b.0 {
        assert (r, u.ahead[r]) in log;
      }
    }
  }

  // Settling a forwarded round keeps it, at the node's new last round.
  lemma LedgerSettled(u: UpstreamState, log: Log, last: u32, round: u32, hash: Hash, at: Time)
    requires Ledger(u.ahead, u.droppedMax, log, last) && round > last
    ensures var u' := u.Settled(round, hash, at, round);
            Ledger(u'.ahead, u'.droppedMax, log, round)
  {
    var u' := u.Settled(round, hash, at, round);
    assert forall r :: r in u'.ahead <==> r in u.ahead && r > round;
    assert forall r | r in u'.ahead :: u'.ahead[r] == u.ahead[r];
  }

  // ---- comparisons and counters ----

  function TrailingMatches(c: seq<Comparison>): nat {
    if c == [] || !c[|c| - 1].Matched() then 0 else 1 + TrailingMatches(c[..|c| - 1])
  }

  function TrailingMismatches(c: seq<Comparison>): nat {
    if c == [] || c[|c| - 1].Matched() then 0 else 1 + TrailingMismatches(c[..|c| - 1])
  }

  ghost predicate Tracks(u: UpstreamState, c: seq<Comparison>) {
    u.verified == TrailingMatches(c) && u.mismatches == TrailingMismatches(c)
  }

  lemma TracksCompared(u: UpstreamState, c: seq<Comparison>, x: Comparison, lead: int)
    requires Tracks(u, c)
    ensures Tracks(u.Compared(x.Matched(), lead), c + [x])
  {
    assert (c + [x])[..|c|] == c;
  }

  // The last `n` comparisons all came out as `matched`.
  ghost predicate LastAll(c: seq<Comparison>, n: nat, matched: bool) {
    n <= |c| && forall i | |c| - n <= i < |c| :: c[i].Matched() == matched
  }

  lemma {:induction false} TrailingMatchesMeans(c: seq<Comparison>, n: nat)
    ensures TrailingMatches(c) >= n <==> LastAll(c, n, true)
  {
    if n > 0 && c != [] {
      TrailingMatchesMeans(c[..|c| - 1], n - 1);
      if LastAll(c, n, true) {
        assert c[|c| - 1].Matched();
        assert forall i | |c| - n <= i < |c| - 1 :: c[..|c| - 1][i] == c[i];
      }
      if TrailingMatches(c) >= n {
        forall i | |c| - n <= i < |c| ensures c[i].Matched() {
          if i < |c| - 1 {
            assert c[..|c| - 1][i] == c[i];
          }
        }
      }
    }
  }

  lemma {:induction false} TrailingMismatchesMeans(c: seq<Comparison>, n: nat)
    ensures TrailingMismatches(c) >= n <==> LastAll(c, n, false)
  {
    if n > 0 && c != [] {
      TrailingMismatchesMeans(c[..|c| - 1], n - 1);
      if LastAll(c, n, false) {
        assert !c[|c| - 1].Matched();
        assert forall i | |c| - n <= i < |c| - 1 :: c[..|c| - 1][i] == c[i];
      }
      if TrailingMismatches(c) >= n {
        forall i | |c| - n <= i < |c| ensures !c[i].Matched() {
          if i < |c| - 1 {
            assert c[..|c| - 1][i] == c[i];
          }
        }
      }
    }
  }

  // A comparison drops the standby exactly when it is the third difference in a row.
  lemma RejectsMeans(u: UpstreamState, c: seq<Comparison>, x: Comparison)
    requires Tracks(u, c)
    ensures u.Rejects(x.Matched()) <==> LastAll(c + [x], MAX_MISMATCHES, false)
  {
    TracksCompared(u, c, x, 0);
    TrailingMismatchesMeans(c + [x], MAX_MISMATCHES);
  }

  // ---- the books of one upstream ----

  ghost predicate WasSent(sent: seq<Sent>, round: u32, hash: Hash) {
    exists i :: 0 <= i < |sent| && sent[i].block.0 == round && sent[i].block.1.hash == hash
  }

  ghost predicate Delivered(log: Log, round: u32, hash: Hash) {
    exists i :: 0 <= i < |log| && log[i].0 == round && log[i].1.hash == hash
  }

  // The comparison was between a block of this upstream and the block the node got for its round.
  ghost predicate Truthful(c: Comparison, log: Log, sent: seq<Sent>) {
    Delivered(log, c.round, c.own) && WasSent(sent, c.round, c.forwarded)
  }

  ghost predicate AllTruthful(c: seq<Comparison>, log: Log, sent: seq<Sent>) {
    forall i | 0 <= i < |c| :: Truthful(c[i], log, sent)
  }

  ghost predicate UpstreamBooks(u: UpstreamState, log: Log, c: seq<Comparison>, sent: seq<Sent>) {
    u.Valid() && FromLog(u.ahead, log) && Tracks(u, c) && AllTruthful(c, log, sent)
  }

  lemma TruthfulLater(c: seq<Comparison>, log: Log, sent: seq<Sent>, moreLog: Log, moreSent: seq<Sent>)
    requires AllTruthful(c, log, sent)
    ensures AllTruthful(c, log + moreLog, sent + moreSent)
  {
    forall i | 0 <= i < |c| ensures Truthful(c[i], log + moreLog, sent + moreSent) {
      assert Truthful(c[i], log, sent);
      var j :| 0 <= j < |log| && log[j].0 == c[i].round && log[j].1.hash == c[i].own;
      assert (log + moreLog)[j] == log[j];
      var k :| 0 <= k < |sent| && sent[k].block.0 == c[i].round && sent[k].block.1.hash == c[i].forwarded;
      assert (sent + moreSent)[k] == sent[k];
    }
  }

  lemma TruthfulOneMore(c: seq<Comparison>, x: Comparison, log: Log, sent: seq<Sent>)
    requires AllTruthful(c, log, sent) && Truthful(x, log, sent)
    ensures AllTruthful(c + [x], log, sent)
  {
    forall i | 0 <= i < |c + [x]| ensures Truthful((c + [x])[i], log, sent) {
      if i < |c| {
        assert (c + [x])[i] == c[i];
      }
    }
  }

  // What a settled round adds to a standby's comparisons.
  function SettleComparison(u: UpstreamState, c: seq<Comparison>, round: u32, hash: Hash): seq<Comparison> {
    if round in u.ahead then c + [Comparison(round, u.ahead[round].hash, hash)] else c
  }

  lemma {:induction false} SettledValid(u: UpstreamState, round: u32, hash: Hash, at: Time, floor: u32)
    requires u.Valid()
    ensures u.Settled(round, hash, at, floor).Valid()
  {
    PartFits(u.Settled(round, hash, at, floor).ahead, u.ahead);
  }

  // The comparison a settled round adds is between this standby's block and the one just sent.
  lemma SettleComparisonTruthful(u: UpstreamState, log: Log, c: seq<Comparison>, sent: seq<Sent>, s: Sent)
    requires AllTruthful(c, log, sent) && FromLog(u.ahead, log)
    ensures AllTruthful(SettleComparison(u, c, s.block.0, s.block.1.hash), log, sent + [s])
  {
    var b := s.block;
    TruthfulLater(c, log, sent, [], [s]);
    assert log + [] == log;
    if b.0 in u.ahead {
      assert (b.0, u.ahead[b.0]) in log;
      var x := Comparison(b.0, u.ahead[b.0].hash, b.1.hash);
      assert (sent + [s])[|sent|] == s;
      assert Truthful(x, log, sent + [s]);
      TruthfulOneMore(c, x, log, sent + [s]);
    }
  }

  lemma TracksSettled(u: UpstreamState, c: seq<Comparison>, round: u32, hash: Hash, at: Time, floor: u32)
    requires Tracks(u, c)
    ensures Tracks(u.Settled(round, hash, at, floor), SettleComparison(u, c, round, hash))
  {
    if round in u.ahead {
      TracksCompared(u, c, Comparison(round, u.ahead[round].hash, hash), Elapsed(at, u.ahead[round].at));
    }
  }

  // ---- the books of the whole session ----

  type Logs = map<Id, Log>
  type Comparisons = map<Id, seq<Comparison>>

  function SentRounds(sent: seq<Sent>): seq<u32> {
    seq(|sent|, i requires 0 <= i < |sent| => sent[i].block.0)
  }

  // The node's stream climbs strictly from the round it started at, and ends at `lastForwarded`;
  // the remembered hashes are those of blocks it contains.
  ghost predicate StreamBooks(core: CoreState, base: u32, sent: seq<Sent>) {
    && StrictlyIncreasing([base] + SentRounds(sent))
    && core.lastForwarded == ([base] + SentRounds(sent))[|sent|]
    && forall r | r in core.forwarded :: WasSent(sent, r, core.forwarded[r].hash)
  }

  // `exempt` are the upstreams whose buffer is no longer kept: an active being replaced.
  ghost predicate Books(core: CoreState, base: u32, sent: seq<Sent>, logs: Logs, comps: Comparisons, exempt: set<Id>) {
    && core.ups.Keys <= logs.Keys && core.ups.Keys <= comps.Keys
    && StreamBooks(core, base, sent)
    && (forall id | id in core.ups :: UpstreamBooks(core.ups[id], logs[id], comps[id], sent))
    && (forall id | id in core.ups && id != core.active && id !in exempt ::
          Ledger(core.ups[id].ahead, core.ups[id].droppedMax, logs[id], core.lastForwarded))
  }

  function SettleComparisons(core: CoreState, comps: Comparisons, round: u32, hash: Hash): Comparisons {
    map id | id in comps ::
      if id in core.ups && id != core.active then SettleComparison(core.ups[id], comps[id], round, hash) else comps[id]
  }

  lemma StreamForward(core: CoreState, base: u32, sent: seq<Sent>, s: Sent)
    requires StreamBooks(core, base, sent) && s.block.0 > core.lastForwarded
    ensures StreamBooks(core.Forward(s.block.0, s.block.1.hash, s.block.1.at), base, sent + [s])
  {
    var (r, a) := s.block;
    assert SentRounds(sent + [s]) == SentRounds(sent) + [r];
    assert [base] + SentRounds(sent + [s]) == ([base] + SentRounds(sent)) + [r];
    var recorded := core.forwarded[r := Forwarded(a.hash, a.at)];
    KeepHighestIsPart(recorded);
    forall x | x in KeepHighest(recorded) ensures WasSent(sent + [s], x, recorded[x].hash) {
      if x == r {
        assert (sent + [s])[|sent|] == s;
      } else {
        var i :| 0 <= i < |sent| && sent[i].block.0 == x && sent[i].block.1.hash == recorded[x].hash;
        assert (sent + [s])[i] == sent[i];
      }
    }
  }

  // An upstream that is neither settled nor trimmed keeps its books as more is sent.
  lemma BooksLater(u: UpstreamState, log: Log, c: seq<Comparison>, sent: seq<Sent>, s: Sent)
    requires UpstreamBooks(u, log, c, sent)
    ensures UpstreamBooks(u, log, c, sent + [s])
  {
    TruthfulLater(c, log, sent, [], [s]);
    assert log + [] == log;
  }

  lemma BooksSettled(u: UpstreamState, log: Log, c: seq<Comparison>, sent: seq<Sent>, s: Sent, floor: u32)
    requires UpstreamBooks(u, log, c, sent)
    ensures var (r, a) := s.block;
            UpstreamBooks(u.Settled(r, a.hash, a.at, floor), log, SettleComparison(u, c, r, a.hash), sent + [s])
  {
    var (r, a) := s.block;
    SettledValid(u, r, a.hash, a.at, floor);
    TracksSettled(u, c, r, a.hash, a.at, floor);
    SettleComparisonTruthful(u, log, c, sent, s);
    assert forall x | x in u.Settled(r, a.hash, a.at, floor).ahead ::
        x in u.ahead && u.Settled(r, a.hash, a.at, floor).ahead[x] == u.ahead[x];
  }

  // Forwarding a block, from whichever upstream, keeps the books.
  lemma BooksForward(core: CoreState, base: u32, sent: seq<Sent>, logs: Logs, comps: Comparisons,
                     exempt: set<Id>, s: Sent)
    requires Books(core, base, sent, logs, comps, exempt) && s.block.0 > core.lastForwarded
    ensures var (r, a) := s.block;
            Books(core.Forward(r, a.hash, a.at), base, sent + [s], logs,
                  SettleComparisons(core, comps, r, a.hash), exempt)
  {
    var (r, a) := s.block;
    StreamForward(core, base, sent, s);
    var core' := core.Forward(r, a.hash, a.at);
    var comps' := SettleComparisons(core, comps, r, a.hash);
    forall id | id in core'.ups ensures UpstreamBooks(core'.ups[id], logs[id], comps'[id], sent + [s]) {
      if id == core.active {
        BooksLater(core.ups[id], logs[id], comps[id], sent, s);
      } else {
        BooksSettled(core.ups[id], logs[id], comps[id], sent, s, r);
      }
    }
    forall id | id in core'.ups && id != core'.active && id !in exempt
      ensures Ledger(core'.ups[id].ahead, core'.ups[id].droppedMax, logs[id], r)
    {
      LedgerSettled(core.ups[id], logs[id], core.lastForwarded, r, a.hash, a.at);
    }
  }

  // ---- a whole replay ----

  function SentAs(blocks: seq<Block>, from: Id): seq<Sent> {
    seq(|blocks|, i requires 0 <= i < |blocks| => Sent(blocks[i], from, true))
  }

  function ReplayComparisons(core: CoreState, comps: Comparisons, blocks: seq<Block>, n: nat): Comparisons
    requires n <= |blocks|
  {
    if n == 0 then comps
    else
      var (r, a) := blocks[n - 1];
      SettleComparisons(core.Replayed(blocks, n - 1), ReplayComparisons(core, comps, blocks, n - 1), r, a.hash)
  }

  lemma {:induction false} BooksReplayed(core: CoreState, base: u32, sent: seq<Sent>, logs: Logs, comps: Comparisons,
                                         exempt: set<Id>, blocks: seq<Block>, n: nat, from: Id)
    requires Books(core, base, sent, logs, comps, exempt) && n <= |blocks|
    requires StrictlyIncreasing([core.lastForwarded] + BlockRounds(blocks))
    ensures Books(core.Replayed(blocks, n), base, sent + SentAs(blocks[..n], from), logs,
                  ReplayComparisons(core, comps, blocks, n), exempt)
    decreases n
  {
    if n == 0 {
      assert sent + SentAs(blocks[..n], from) == sent;
    } else {
      BooksReplayed(core, base, sent, logs, comps, exempt, blocks, n - 1, from);
      ReplayedLast(core, blocks, n - 1);
      var all := [core.lastForwarded] + BlockRounds(blocks);
      assert all[n - 1] < all[n] == blocks[n - 1].0;
      BooksForward(core.Replayed(blocks, n - 1), base, sent + SentAs(blocks[..n - 1], from), logs,
                   ReplayComparisons(core, comps, blocks, n - 1), exempt, Sent(blocks[n - 1], from, true));
      SentOneMore(sent, blocks, n, from);
    }
  }

  lemma SentOneMore(sent: seq<Sent>, blocks: seq<Block>, n: nat, from: Id)
    requires 0 < n <= |blocks|
    ensures sent + SentAs(blocks[..n], from)
         == (sent + SentAs(blocks[..n - 1], from)) + [Sent(blocks[n - 1], from, true)]
  {
  }

  lemma {:induction false} ReplayedLast(core: CoreState, blocks: seq<Block>, n: nat)
    requires n <= |blocks|
    ensures core.Replayed(blocks, n).lastForwarded == ([core.lastForwarded] + BlockRounds(blocks))[n]
  {
  }

  function BlockRounds(blocks: seq<Block>): seq<u32> {
    seq(|blocks|, i requires 0 <= i < |blocks| => blocks[i].0)
  }

  // ---- single-upstream changes ----

  lemma BooksLogged(u: UpstreamState, log: Log, c: seq<Comparison>, sent: seq<Sent>, b: Block)
    requires UpstreamBooks(u, log, c, sent)
    ensures UpstreamBooks(u, log + [b], c, sent)
  {
    TruthfulLater(c, log, sent, [b], []);
    assert sent + [] == sent;
  }

  lemma BooksInserted(u: UpstreamState, log: Log, c: seq<Comparison>, sent: seq<Sent>, b: Block)
    requires UpstreamBooks(u, log, c, sent)
    ensures UpstreamBooks(u.Inserted(b.0, b.1), log + [b], c, sent)
  {
    BooksLogged(u, log, c, sent, b);
    FromLogInserted(u, log, b);
    OperationsKeepValid(u, true, 0, b.0, b.1);
  }

  lemma BooksCompared(u: UpstreamState, log: Log, c: seq<Comparison>, sent: seq<Sent>, b: Block, hash: Hash, lead: int)
    requires UpstreamBooks(u, log, c, sent) && WasSent(sent, b.0, hash)
    ensures var x := Comparison(b.0, b.1.hash, hash);
            UpstreamBooks(u.Compared(x.Matched(), lead), log + [b], c + [x], sent)
  {
    BooksLogged(u, log, c, sent, b);
    var x := Comparison(b.0, b.1.hash, hash);
    TracksCompared(u, c, x, lead);
    assert (log + [b])[|log|] == b;
    assert Truthful(x, log + [b], sent);
    TruthfulOneMore(c, x, log + [b], sent);
  }

  // Replacing one upstream, with its log and comparisons, by one whose books are in order.
  lemma BooksWith(core: CoreState, base: u32, sent: seq<Sent>, logs: Logs, comps: Comparisons,
                  id: Id, u: UpstreamState, log: Log, c: seq<Comparison>)
    requires Books(core, base, sent, logs, comps, {})
    requires UpstreamBooks(u, log, c, sent)
    requires id != core.active ==> Ledger(u.ahead, u.droppedMax, log, core.lastForwarded)
    ensures Books(core.With(id, u), base, sent, logs[id := log], comps[id := c], {})
  {
  }

  // What a standby's block adds to its comparisons: one, if the node has its round and the hash sent
  // for it is still known.
  function StandbyComparison(core: CoreState, c: seq<Comparison>, b: Block): seq<Comparison> {
    if b.0 <= core.lastForwarded && b.0 in core.forwarded
    then c + [Comparison(b.0, b.1.hash, core.forwarded[b.0].hash)] else c
  }

  // A standby's block, buffered or compared, keeps the books with the block logged.
  lemma BooksStandby(core: CoreState, base: u32, sent: seq<Sent>, logs: Logs, comps: Comparisons, id: Id, b: Block)
    requires Books(core, base, sent, logs, comps, {}) && id in core.ups && id != core.active
    ensures Books(core.OnStandbyBlock(id, b.0, b.1), base, sent, logs[id := logs[id] + [b]],
                  comps[id := StandbyComparison(core, comps[id], b)], {})
  {
    var log, c := logs[id], comps[id];
    var heard := core.ups[id].(lastRx := Some(b.1.at));
    var u := core.OnStandbyBlock(id, b.0, b.1).ups[id];
    if b.0 > core.lastForwarded {
      LedgerInserted(heard, log, core.lastForwarded, b);
      BooksInserted(heard, log, c, sent, b);
    } else if b.0 in core.forwarded {
      var f := core.forwarded[b.0];
      BooksCompared(heard, log, c, sent, b, f.hash, 0 - Elapsed(b.1.at, f.at));
    } else {
      BooksLogged(heard, log, c, sent, b);
    }
    BooksWith(core, base, sent, logs, comps, id, u, log + [b], StandbyComparison(core, c, b));
  }

  // Logging a block of the active that goes no further.
  lemma BooksActiveLogged(core: CoreState, base: u32, sent: seq<Sent>, logs: Logs, comps: Comparisons, b: Block)
    requires Books(core, base, sent, logs, comps, {}) && core.active in core.ups
    ensures Books(core, base, sent, logs[core.active := logs[core.active] + [b]], comps, {})
  {
    var id := core.active;
    BooksLogged(core.ups[id], logs[id], comps[id], sent, b);
    BooksWith(core, base, sent, logs, comps, id, core.ups[id], logs[id] + [b], comps[id]);
    SameEntry(core.ups, id);
    SameEntry(comps, id);
  }

  lemma SameEntry<T>(m: map<Id, T>, id: Id)
    requires id in m
    ensures m[id := m[id]] == m
  {
  }

  lemma BooksHeard(core: CoreState, base: u32, sent: seq<Sent>, logs: Logs, comps: Comparisons, at: Time)
    requires Books(core, base, sent, logs, comps, {}) && core.active in core.ups
    ensures Books(core.Heard(core.active, at), base, sent, logs, comps, {})
  {
    var id := core.active;
    var u := core.ups[id].(lastRx := Some(at));
    HeardBooks(core.ups[id], logs[id], comps[id], sent, at);
    BooksWith(core, base, sent, logs, comps, id, u, logs[id], comps[id]);
    SameEntry(logs, id);
    SameEntry(comps, id);
  }

  lemma HeardBooks(u: UpstreamState, log: Log, c: seq<Comparison>, sent: seq<Sent>, at: Time)
    requires UpstreamBooks(u, log, c, sent)
    ensures UpstreamBooks(u.(lastRx := Some(at)), log, c, sent)
  {
  }

  lemma BooksDropped(core: CoreState, base: u32, sent: seq<Sent>, logs: Logs, comps: Comparisons,
                     exempt: set<Id>, ids: set<Id>)
    requires Books(core, base, sent, logs, comps, exempt) && exempt <= ids
    ensures Books(core.(ups := core.ups - ids), base, sent, logs, comps, {})
  {
  }

  lemma BooksLeadsCleared(core: CoreState, base: u32, sent: seq<Sent>, logs: Logs, comps: Comparisons, exempt: set<Id>)
    requires Books(core, base, sent, logs, comps, exempt)
    ensures Books(core.LeadsCleared(), base, sent, logs, comps, exempt)
  {
    var core' := core.LeadsCleared();
    forall id | id in core'.ups ensures UpstreamBooks(core'.ups[id], logs[id], comps[id], sent) {
      assert UpstreamBooks(core.ups[id], logs[id], comps[id], sent);
    }
  }

  // ---- the switch ----

  lemma BooksTakenOver(core: CoreState, base: u32, sent: seq<Sent>, logs: Logs, comps: Comparisons, id: Id, now: Time)
    requires Books(core, base, sent, logs, comps, {}) && id in core.ups
    ensures Books(core.TakenOver(id, now), base, sent, logs, comps, {core.active})
  {
    var u := core.ups[id];
    var u' := u.WithoutChain(u.ReplayableChain(core.lastForwarded));
    PartFits(u'.ahead, u.ahead);
    assert UpstreamBooks(u', logs[id], comps[id], sent);
  }

  lemma ReplayClimbs(core: CoreState, base: u32, sent: seq<Sent>, logs: Logs, comps: Comparisons, id: Id)
    requires Books(core, base, sent, logs, comps, {}) && id in core.ups && id != core.active
    ensures var blocks := core.ReplayBlocks(id);
            && StrictlyIncreasing([core.lastForwarded] + BlockRounds(blocks))
            && forall i | 0 <= i < |blocks| ::
                 blocks[i].1.parent == ([core.lastForwarded] + BlockRounds(blocks))[i]
  {
    var u := core.ups[id];
    var c := u.ReplayableChain(core.lastForwarded);
    assert BlockRounds(core.ReplayBlocks(id)) == c;
    if c != [] {
      ChainClimbs(u.ahead, core.lastForwarded);
      ChainParents(u.ahead, core.lastForwarded);
    }
  }

  lemma {:induction false} BooksSwitched(core: CoreState, base: u32, sent: seq<Sent>, logs: Logs, comps: Comparisons,
                      id: Id, now: Time, ids: set<Id>)
    requires Books(core, base, sent, logs, comps, {})
    requires core.CanSwitchTo(id) && id != core.active && core.active in ids
    ensures var core' := core.SwitchTo(id, now);
            Books(core'.(ups := core'.ups - ids), base, sent + SentAs(core.ReplayBlocks(id), id), logs,
                  ReplayComparisons(core.TakenOver(id, now), comps, core.ReplayBlocks(id), |core.ReplayBlocks(id)|), {})
  {
    var taken, blocks := core.TakenOver(id, now), core.ReplayBlocks(id);
    BooksTakenOver(core, base, sent, logs, comps, id, now);
    ReplayClimbs(core, base, sent, logs, comps, id);
    BooksReplayed(taken, base, sent, logs, comps, {core.active}, blocks, |blocks|, id);
    assert blocks[..|blocks|] == blocks;
    var sent', comps' := sent + SentAs(blocks, id), ReplayComparisons(taken, comps, blocks, |blocks|);
    BooksLeadsCleared(taken.Replayed(blocks, |blocks|), base, sent', logs, comps', {core.active});
    BooksDropped(core.SwitchTo(id, now), base, sent', logs, comps', {core.active}, ids);
  }
}
