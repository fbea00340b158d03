/**
 The rules every block round is held to (`src/protocol.rs`), and a stream's progress through its
 rounds (`src/push/live.rs`, `BlockProgress`).
 */
module Rounds {
  import opened Primitives

  const MIN_PLAUSIBLE_MAINNET_ROUND: u32 := 1_000_000_000
  const ACTIVE_ROUND_MAX_LAG: u32 := 1_500
  const NET_TIP_SLACK_ROUNDS: u32 := 200_000
  const MAX_ACTIVE_ROUND_JUMP: u32 := 20_000

  predicate IsPlausible(round: u32, netTip: u32) {
    round >= MIN_PLAUSIBLE_MAINNET_ROUND && (netTip == 0 || round <= SatAdd(netTip, NET_TIP_SLACK_ROUNDS))
  }

  function LagFromTip(round: u32, netTip: u32, maxLag: u32): Option<u32> {
    if netTip == 0 || round >= netTip then None
    else if netTip - round > maxLag then Some(netTip - round) else None
  }

  datatype Progress = Progress(lastRound: u32, at: Time, lagSince: Option<Time>) {

    // The round is too far above the stream's last one to be real.
    predicate Jumps(round: u32) {
      lastRound != 0 && round > SatAdd(lastRound, MAX_ACTIVE_ROUND_JUMP)
    }

    function Reached(round: u32, now: Time): Progress {
      if round > lastRound then this.(lastRound := round, at := now) else this
    }
  }

  function NewProgress(lastRound: u32, now: Time): Progress {
    Progress(lastRound, now, None)
  }
}
