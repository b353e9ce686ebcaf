/**
 The block heights of one lottery round, as the Java code computes them from
 the wallet's round parameters: start `S`, period `P`, delay `D` and claiming
 period `C`. Every sum is Java `int` arithmetic, so it wraps modulo 2^32.
 */
module Round {
  import opened JavaInt

  /** The four round parameters the wallet reports. */
  datatype RoundParams = RoundParams(start: Int32, period: Int32, delay: Int32, claimingPeriod: Int32)

  /** Periods are positive: the configurations the protocol intends. */
  predicate Positive(p: RoundParams) {
    p.period >= 1 && p.delay >= 1 && p.claimingPeriod >= 1
  }

  /** The largest height in the round, `S+P+D+C`, fits in a Java `int`. */
  predicate NoOverflow(p: RoundParams) {
    InInt32Range(p.start + p.period + p.delay + p.claimingPeriod)
  }

  /** Every height the entry script pushes, `S+P`, `S+P+D-1`, `S+P+D` and `S+P+D+C`, fits in a Java `int`. */
  predicate HeightsInRange(p: RoundParams) {
    && InInt32Range(p.start + p.period)
    && InInt32Range(p.start + p.period + p.delay - 1)
    && InInt32Range(p.start + p.period + p.delay)
    && NoOverflow(p)
  }

  /** `S+P`: the first height of the beacon range. */
  function RevealOpensAt(p: RoundParams): (h: Int32)
    ensures InInt32Range(p.start + p.period) ==> h == p.start + p.period
    ensures (h - (p.start + p.period)) % Two32 == 0
  {
    Wrap32(p.start + p.period)
  }

  /** `S+P+D-1`: the last height of the beacon range. */
  function LastBeaconHeight(p: RoundParams): (h: Int32)
    ensures InInt32Range(p.start + p.period + p.delay - 1) ==> h == p.start + p.period + p.delay - 1
    ensures (h - (p.start + p.period + p.delay - 1)) % Two32 == 0
  {
    Wrap32(p.start + p.period + p.delay - 1)
  }

  /** `S+P+D`: the lock time of the claim branch. */
  function ClaimLockHeight(p: RoundParams): (h: Int32)
    ensures InInt32Range(p.start + p.period + p.delay) ==> h == p.start + p.period + p.delay
    ensures (h - (p.start + p.period + p.delay)) % Two32 == 0
  {
    Wrap32(p.start + p.period + p.delay)
  }

  /** `S+P+D+C`: the lock time of the rollover branch. */
  function RolloverLockHeight(p: RoundParams): (h: Int32)
    ensures NoOverflow(p) ==> h == p.start + p.period + p.delay + p.claimingPeriod
    ensures (h - (p.start + p.period + p.delay + p.claimingPeriod)) % Two32 == 0
  {
    Wrap32(p.start + p.period + p.delay + p.claimingPeriod)
  }

  /**
   For positive periods and no overflow the heights are strictly ordered:
   `S < S+P <= S+P+D-1 < S+P+D < S+P+D+C`.
   */
  lemma {:induction false} WindowOrdered(p: RoundParams)
    requires Positive(p) && NoOverflow(p)
    ensures p.start < RevealOpensAt(p) <= LastBeaconHeight(p)
    ensures LastBeaconHeight(p) < ClaimLockHeight(p) < RolloverLockHeight(p)
    ensures ClaimLockHeight(p) - RevealOpensAt(p) == p.delay
    ensures RolloverLockHeight(p) - ClaimLockHeight(p) == p.claimingPeriod
  {
    var s := p.start;
    assert InInt32Range(s + p.period);
    assert InInt32Range(s + p.period + p.delay - 1);
    assert InInt32Range(s + p.period + p.delay);
  }

  /**
   Without the no-overflow condition the order fails: a start just below
   2^31 makes the rollover lock time wrap to a negative height, before the
   claim lock time.
   */
  lemma {:induction false} OverflowBreaksOrder()
    ensures var p := RoundParams(0x7FFF_FFFD, 1, 1, 1);
            Positive(p) && !NoOverflow(p) && RolloverLockHeight(p) < ClaimLockHeight(p)
  {
    var p := RoundParams(0x7FFF_FFFD, 1, 1, 1);
    assert ClaimLockHeight(p) == 0x7FFF_FFFF;
    assert RolloverLockHeight(p) == -0x8000_0000;
  }

  /** `S=100, P=50, D=6, C=20`: the beacon range is 150..155, claim lock 156, rollover lock 176. */
  lemma {:induction false} ExampleRound()
    ensures var p := RoundParams(100, 50, 6, 20);
            && RevealOpensAt(p) == 150 && LastBeaconHeight(p) == 155
            && ClaimLockHeight(p) == 156 && RolloverLockHeight(p) == 176
  {
  }
}
