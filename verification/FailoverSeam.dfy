/**
 Why a switch is seamless: a standby whose stream is linked block to block, and whose discarded
 blocks the node already has, buffers exactly what it delivered above the node's last round.
 */
module FailoverSeam {
  import opened Primitives
  import opened FailoverUpstream
  import opened FailoverBooks

  // Rounds increase and each block names the one before it as its parent.
  ghost predicate Linked(log: Log) {
    forall i | 0 < i < |log| :: log[i].0 > log[i - 1].0 && log[i].1.parent == log[i - 1].0
  }

  lemma {:induction false} LinkedClimbs(log: Log, i: nat, j: nat)
    requires Linked(log) && i < j < |log|
    ensures log[i].0 < log[j].0
    decreases j - i
  {
    if i + 1 < j {
      LinkedClimbs(log, i, j - 1);
    }
  }

  // The deliveries above `last`, in order.
  function AboveRound(log: Log, last: u32): Log {
    if log == [] then []
    else if log[0].0 > last then [log[0]] + AboveRound(log[1..], last)
    else AboveRound(log[1..], last)
  }

  lemma LinkedFrom(log: Log, k: nat)
    requires Linked(log) && k <= |log|
    ensures Linked(log[k..])
  {
    forall i | 0 < i < |log[k..]| ensures log[k..][i].0 > log[k..][i - 1].0 && log[k..][i].1.parent == log[k..][i - 1].0 {
      assert log[k..][i] == log[k + i] && log[k..][i - 1] == log[k + i - 1];
    }
  }

  lemma {:induction false} AboveRoundAll(log: Log, last: u32)
    requires forall i | 0 <= i < |log| :: log[i].0 > last
    ensures AboveRound(log, last) == log
  {
    if log != [] {
      AboveRoundAll(log[1..], last);
    }
  }

  lemma {:induction false} AboveRoundOfLinked(log: Log, last: u32) returns (k: nat)
    requires Linked(log)
    ensures k <= |log| && AboveRound(log, last) == log[k..]
    ensures forall i | 0 <= i < |log| :: i < k <==> log[i].0 <= last
  {
    if log == [] {
      k := 0;
    } else if log[0].0 > last {
      k := 0;
      forall i | 0 <= i < |log| ensures log[i].0 > last {
        if i > 0 {
          LinkedClimbs(log, 0, i);
        }
      }
      AboveRoundAll(log, last);
    } else {
      LinkedFrom(log, 1);
      var r := AboveRoundOfLinked(log[1..], last);
      k := r + 1;
      forall i | 0 <= i < |log| ensures i < k <==> log[i].0 <= last {
        if i > 0 {
          assert log[1..][i - 1] == log[i];
        }
      }
    }
  }

  // The buffer holding exactly the blocks of `s`.
  function BufferOf(s: Log): Buffer {
    if s == [] then map[] else BufferOf(s[1..])[s[0].0 := s[0].1]
  }

  lemma {:induction false} BufferOfHas(s: Log, i: nat)
    requires Linked(s) && i < |s|
    ensures s[i].0 in BufferOf(s) && BufferOf(s)[s[i].0] == s[i].1
  {
    if i > 0 {
      LinkedFrom(s, 1);
      LinkedClimbs(s, 0, i);
      BufferOfHas(s[1..], i - 1);
    }
  }

  lemma {:induction false} BufferOfHasOnly(s: Log, r: u32) returns (i: nat)
    requires r in BufferOf(s)
    ensures i < |s| && s[i].0 == r
  {
    if s[0].0 == r {
      i := 0;
    } else {
      i := BufferOfHasOnly(s[1..], r);
      i := i + 1;
    }
  }

  // The lowest round of a linked run...
  lemma {:induction false} BufferOfMin(s: Log)
    requires Linked(s) && s != []
    ensures s[0].0 in BufferOf(s) && MinKey(BufferOf(s)) == s[0].0
  {
    forall k | k in BufferOf(s) ensures k >= s[0].0 {
      var i := BufferOfHasOnly(s, k);
      if i > 0 {
        LinkedClimbs(s, 0, i);
      }
    }
  }

  // ...and the rest of it.
  lemma {:induction false} BufferOfRest(s: Log)
    requires Linked(s) && s != []
    ensures BufferOf(s) - {s[0].0} == BufferOf(s[1..])
  {
    if s[0].0 in BufferOf(s[1..]) {
      var i := BufferOfHasOnly(s[1..], s[0].0);
      LinkedClimbs(s, 0, i + 1);
      assert false;
    }
  }

  // A buffer holding a linked run that starts at `cur` chains through all of it.
  lemma {:induction false} ChainOfLinked(s: Log, cur: u32)
    requires Linked(s) && s != [] && s[0].0 > cur && s[0].1.parent == cur
    ensures Chain(BufferOf(s), cur) == BlockRounds(s)
    decreases |s|
  {
    var r := s[0].0;
    BufferOfMin(s);
    BufferOfRest(s);
    AllFrom(BufferOf(s), SatAdd(cur, 1));
    ChainStep(BufferOf(s), cur);
    assert BlockRounds(s) == [r] + BlockRounds(s[1..]);
    if |s| > 1 {
      LinkedFrom(s, 1);
      ChainOfLinked(s[1..], r);
    }
  }

  // A standby whose discards the node already has, and whose stream is linked, buffers exactly the
  // blocks it delivered above the node's last round.
  lemma {:induction false} BufferIsTail(u: UpstreamState, log: Log, last: u32)
    requires Ledger(u.ahead, u.droppedMax, log, last) && FromLog(u.ahead, log)
    requires u.CanContinue(last) && Linked(log)
    ensures u.ahead == BufferOf(AboveRound(log, last))
  {
    var k := AboveRoundOfLinked(log, last);
    var m := BufferOf(log[k..]);
    forall r | r in m ensures r in u.ahead {
      var i := BufferOfHasOnly(log[k..], r);
      assert log[k + i] in log && log[k + i].0 > last;
    }
    forall r | r in u.ahead ensures r in m && m[r] == u.ahead[r] {
      TailHas(u.ahead, log, last, k, r);
    }
  }

  lemma {:induction false} TailHas(ahead: Buffer, log: Log, last: u32, k: nat, r: u32)
    requires Linked(log) && FromLog(ahead, log) && r in ahead && r > last
    requires k <= |log| && forall i | 0 <= i < |log| :: i < k <==> log[i].0 <= last
    ensures r in BufferOf(log[k..]) && BufferOf(log[k..])[r] == ahead[r]
  {
    assert (r, ahead[r]) in log;
    var j :| 0 <= j < |log| && log[j] == (r, ahead[r]);
    LinkedFrom(log, k);
    BufferOfHas(log[k..], j - k);
  }

  lemma {:induction false} BlocksOfBuffer(s: Log)
    requires Linked(s)
    ensures forall r | r in BlockRounds(s) :: r in BufferOf(s)
    ensures Blocks(BufferOf(s), BlockRounds(s)) == s
  {
    forall i | 0 <= i < |s| ensures BlockRounds(s)[i] in BufferOf(s) && BufferOf(s)[s[i].0] == s[i].1 {
      BufferOfHas(s, i);
    }
  }

  lemma {:induction false} NothingLeft(s: Log)
    ensures BufferOf(s) - (set r | r in BlockRounds(s)) == map[]
  {
    forall r | r in BufferOf(s) ensures r in BlockRounds(s) {
      var i := BufferOfHasOnly(s, r);
      assert BlockRounds(s)[i] == r;
    }
  }

  // The seamless switch: what is replayed is everything this standby delivered above the node's
  // last round, in order, up to its newest block, and nothing is left behind.
  lemma {:induction false} SwitchReplaysTail(u: UpstreamState, log: Log, last: u32)
    requires Ledger(u.ahead, u.droppedMax, log, last) && FromLog(u.ahead, log)
    requires Linked(log) && u.ReplayableChain(last) != []
    ensures Blocks(u.ahead, u.ReplayableChain(last)) == AboveRound(log, last)
    ensures AboveRound(log, last) != [] && AboveRound(log, last)[|AboveRound(log, last)| - 1] == log[|log| - 1]
    ensures u.WithoutChain(u.ReplayableChain(last)).ahead == map[]
  {
    var k := AboveRoundOfLinked(log, last);
    var s := log[k..];
    BufferIsTail(u, log, last);
    LinkedFrom(log, k);
    ChainHead(u.ahead, last);
    BufferOfMin(s);
    BufferOfHas(s, 0);
    ChainOfLinked(s, last);
    BlocksOfBuffer(s);
    NothingLeft(s);
  }
}
