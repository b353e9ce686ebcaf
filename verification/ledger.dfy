/**
 The ledger-side values the lottery code reads and builds: claim candidates
 reported by the wallet, the claim transaction spending one of them, and the
 entry transaction funding a commitment. Amounts are satoshi counts
 (bitcoinj `Coin` values).
 */
module Ledger {
  import opened Wrappers
  import opened JavaInt
  import opened Script
  import opened Entries

  /** `Coin.COIN`, the stake locked by one entry. */
  const Stake: int := 100_000_000

  /** The claim input's sequence number: not final, so the lock time is honoured. */
  const ClaimSequence: nat := 100

  /** A wallet address (built and parsed by the wallet library). */
  datatype Address = Address(encoded: string)

  /**
   A spendable output the wallet reports as a claim candidate; whether its
   script is a lottery entry is decided by the script library.
   */
  datatype Candidate = Candidate(parentHash: Hash, index: nat, value: int, isLotteryEntry: bool)

  /** A claim transaction: one input spending a candidate, one output paying back to the wallet. */
  datatype ClaimTx = ClaimTx(
    prevHash: Hash,
    prevIndex: nat,
    scriptSig: seq<Op>,
    sequence: nat,
    outValue: int,
    payTo: Address,
    lockTime: Int32)

  /**
   The wallet state a claim reads: the balance, the claim candidates of the
   previous round (`None` outside its claiming period), the last block height
   seen and the change address.
   */
  datatype Wallet = Wallet(balance: int, candidates: Option<seq<Candidate>>, height: Int32, change: Address)

  /** The entry transaction's lottery output; inputs and change are left to the wallet. */
  datatype EntryTx = EntryTx(value: int, script: seq<Op>)

  /** Why an entry did or did not go out. */
  datatype EnterOutcome =
    | InsufficientBalance(needed: int, balance: int)
    | Sent(tx: EntryTx)
      /** A Java exception escaped (a `null` script or a wallet that could not fund the send). */
    | Aborted

  /**
   `tx` spends candidate `c` the way both revisions build a claim: same
   outpoint, input sequence 100, output of the candidate's value less the fee,
   lock time the current height.
   */
  predicate SpendsCandidate(tx: ClaimTx, c: Candidate, fee: int, height: Int32) {
    && tx.prevHash == c.parentHash
    && tx.prevIndex == c.index
    && tx.sequence == ClaimSequence
    && tx.outValue == c.value - fee
    && tx.lockTime == height
  }

  /** The claim transaction both revisions build for candidate `c` with unlocking script `scriptSig`. */
  function BuildClaimTx(c: Candidate, scriptSig: seq<Op>, fee: int, height: Int32, change: Address): (tx: ClaimTx)
    ensures SpendsCandidate(tx, c, fee, height)
    ensures tx.scriptSig == scriptSig && tx.payTo == change
  {
    ClaimTx(c.parentHash, c.index, scriptSig, ClaimSequence, c.value - fee, change, height)
  }

  /** The candidates whose script the library recognises as a lottery entry, in order. */
  function LotteryCandidates(cands: seq<Candidate>): (lc: seq<Candidate>)
    ensures |lc| <= |cands|
    ensures forall c :: c in lc ==> c in cands && c.isLotteryEntry
    ensures |lc| == 0 <==> forall c :: c in cands ==> !c.isLotteryEntry
    ensures forall c :: c in cands && c.isLotteryEntry ==> c in lc
  {
    if |cands| == 0 then []
    else
      var rest := LotteryCandidates(cands[1..]);
      assert forall c :: c in cands[1..] ==> c in cands;
      if cands[0].isLotteryEntry then [cands[0]] + rest else rest
  }

  /**
   The filter keeps every lottery candidate as often as the list holds it and
   drops every other candidate.
   */
  lemma {:induction false} LotteryCandidatesCount(cands: seq<Candidate>)
    ensures forall c :: multiset(LotteryCandidates(cands))[c] == if c.isLotteryEntry then multiset(cands)[c] else 0
    decreases |cands|
  {
    if |cands| > 0 {
      LotteryCandidatesCount(cands[1..]);
      assert cands == [cands[0]] + cands[1..];
      assert multiset(cands) == multiset([cands[0]]) + multiset(cands[1..]);
      if cands[0].isLotteryEntry {
        var lc := LotteryCandidates(cands);
        assert multiset(lc) == multiset([cands[0]]) + multiset(LotteryCandidates(cands[1..]));
      }
    }
  }

  /** A non-lottery candidate at the front contributes nothing to the lottery candidates. */
  lemma {:induction false} LotteryCandidatesSkip(cands: seq<Candidate>)
    requires |cands| > 0 && !cands[0].isLotteryEntry
    ensures LotteryCandidates(cands) == LotteryCandidates(cands[1..])
  {
  }

  /** A lottery candidate at the front is the first lottery candidate. */
  lemma {:induction false} LotteryCandidatesTake(cands: seq<Candidate>)
    requires |cands| > 0 && cands[0].isLotteryEntry
    ensures LotteryCandidates(cands) == [cands[0]] + LotteryCandidates(cands[1..])
  {
  }

  /** The balance an entry needs: the stake, the output's dust floor and the fee. */
  function EntryBalanceNeeded(minNonDust: int, fee: int): (needed: int)
    ensures minNonDust >= 0 && fee >= 0 ==> needed >= Stake
  {
    Stake + minNonDust + fee
  }
}
