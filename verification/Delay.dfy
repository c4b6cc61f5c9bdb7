/** The connection delay: how many blocks it spans, and whether it has passed since a client update. */
module Delay {
  import opened Ibc

  const U64_MAX: nat := 0xFFFF_FFFF_FFFF_FFFF

  function Ceiling(x: real): int {
    -((-x).Floor)
  }

  /** The number of blocks in `delay` nanoseconds when a block takes `blockTime` nanoseconds. The
      division is exact here; the cast to 64 bits saturates. */
  function BlockDelay(delay: nat, blockTime: nat): nat {
    if blockTime == 0 then 0
    else
      QuotientNonNegative(delay, blockTime);
      var blocks := Ceiling(delay as real / blockTime as real);
      if blocks > U64_MAX then U64_MAX else blocks
  }

  lemma QuotientNonNegative(delay: nat, blockTime: nat)
    requires blockTime > 0
    ensures Ceiling(delay as real / blockTime as real) >= 0
  {
  }

  lemma QuotientBelow(delay: nat, blockTime: nat, k: nat)
    requires blockTime > 0
    ensures delay as real / blockTime as real <= k as real <==> delay <= k * blockTime
  {
  }

  /** Up to saturation, `k` blocks last at least as long as the delay exactly when `k` is at least
      the block delay: the block delay is the least such number. */
  lemma BlockDelayIsLeast(delay: nat, blockTime: nat, k: nat)
    requires blockTime > 0 && k < U64_MAX
    ensures k >= BlockDelay(delay, blockTime) <==> k * blockTime >= delay
  {
    QuotientBelow(delay, blockTime, k);
    var q := delay as real / blockTime as real;
    assert Ceiling(q) <= k <==> q <= k as real;
  }

  /** Fails when the client's update time plus the delay is not representable. */
  function HasDelayElapsed(maxTime: nat, time: nat, height: Height, updateTime: nat, updateHeight: Height,
                           delay: nat, blocks: nat): Result<bool>
  {
    if updateTime + delay > maxTime then Err(TimestampOverflow)
    else if !(time == updateTime + delay || time > updateTime + delay) then Ok(false)
    else Ok(!height.Below(updateHeight.Plus(blocks)))
  }

  /** The time and block delay check of a chain whose blocks take `blockTime`. An unknown update
      counts as a delay that has not passed. */
  function VerifyDelayPassed(maxTime: nat, host: ChainView, client: Id, delay: nat, proof: Height): Result<bool> {
    if (client, proof) !in host.updates then Ok(false)
    else
      var (updateHeight, updateTime) := host.updates[(client, proof)];
      HasDelayElapsed(maxTime, host.time, host.height, updateTime, updateHeight, delay,
                      BlockDelay(delay, host.blockTime))
  }

  /** The time that must pass and the blocks that must be produced, without the block count: the
      delay has passed exactly when the clock has advanced by `delay` and the blocks produced since
      the update, at the expected block time, cover it too. */
  ghost predicate DelayCovered(host: ChainView, updateHeight: Height, updateTime: nat, delay: nat) {
    && host.time >= updateTime + delay
    && updateHeight.AtMost(host.height)
    && (updateHeight.number == host.height.number ==>
          (host.height.height - updateHeight.height) * host.blockTime >= delay || host.blockTime == 0)
  }

  lemma DelayPassedMeaning(maxTime: nat, host: ChainView, client: Id, delay: nat, proof: Height)
    requires host.height.height < U64_MAX
    ensures VerifyDelayPassed(maxTime, host, client, delay, proof) == Ok(true) <==>
              && (client, proof) in host.updates
              && var (updateHeight, updateTime) := host.updates[(client, proof)];
              && updateTime + delay <= maxTime
              && DelayCovered(host, updateHeight, updateTime, delay)
  {
    if (client, proof) in host.updates {
      var (updateHeight, updateTime) := host.updates[(client, proof)];
      if host.blockTime > 0 && updateHeight.number == host.height.number && updateHeight.height <= host.height.height {
        BlockDelayIsLeast(delay, host.blockTime, host.height.height - updateHeight.height);
      }
    }
  }

  /** The check fails exactly when the end of the delay is not representable. */
  lemma DelayCheckFails(maxTime: nat, host: ChainView, client: Id, delay: nat, proof: Height)
    ensures VerifyDelayPassed(maxTime, host, client, delay, proof).Err? <==>
              (client, proof) in host.updates && host.updates[(client, proof)].1 + delay > maxTime
  {
  }

  /** Once passed, the delay stays passed while the host chain grows and keeps its update records. */
  lemma DelayStaysPassed(maxTime: nat, host: ChainView, later: ChainView, client: Id, delay: nat, proof: Height)
    requires VerifyDelayPassed(maxTime, host, client, delay, proof) == Ok(true)
    requires host.time <= later.time && host.height.AtMost(later.height) && host.blockTime == later.blockTime
    requires (client, proof) in later.updates && later.updates[(client, proof)] == host.updates[(client, proof)]
    ensures VerifyDelayPassed(maxTime, later, client, delay, proof) == Ok(true)
  {
  }
}
