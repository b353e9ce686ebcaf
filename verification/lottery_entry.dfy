/**
 The `LotteryEntry` revision: no local entry store. The entry script commits
 to nothing after `EQUAL`, the reveal carries the guess alone, and claiming
 reports whether every lottery candidate got a claim. Two wallet listeners
 enter once funds arrive and claim once the claiming period opens.
 */
module LotteryEntry {
  import opened Wrappers
  import opened JavaInt
  import opened Script
  import opened Round
  import opened EntryScript
  import opened GuessScript
  import opened Ledger

  /**
   `lotteryEntry()`: refuses below the stake plus the output's dust floor plus
   the fee; otherwise sends the stake to the round's entry script, or aborts
   when the wallet cannot fund the send (`sendFunded` false, the rethrown
   `InsufficientMoneyException`).
   */
  function Enter(p: RoundParams, rollover: seq<Op>, balance: int, minNonDust: int, fee: int, sendFunded: bool): (o: EnterOutcome)
    ensures o.InsufficientBalance? <==> balance < Stake + minNonDust + fee
    ensures o.InsufficientBalance? ==> o.needed == Stake + minNonDust + fee && o.balance == balance
    ensures o.Aborted? <==> balance >= Stake + minNonDust + fee && !sendFunded
    ensures o.Sent? ==> && o.tx.value == Stake
                        && Disassemble(o.tx.script) == Some(RoundTemplate(p, None, rollover))
  {
    var script := EntryScriptNoGuess(p, rollover);
    var needed := EntryBalanceNeeded(minNonDust, fee);
    if balance < needed then InsufficientBalance(needed, balance)
    else if !sendFunded then Aborted
    else Sent(EntryTx(Stake, script))
  }

  /** What `claimWinnings` returns, with the claims it sent. */
  datatype EntryClaim = EntryClaim(ok: bool, sent: seq<ClaimTx>)

  /** The claim for each lottery candidate in turn, all revealing with `scriptSig`. */
  function ClaimsFor(lottery: seq<Candidate>, scriptSig: seq<Op>, fee: int, w: Wallet): (txs: seq<ClaimTx>)
    ensures |txs| == |lottery|
    ensures forall i :: 0 <= i < |txs| ==> txs[i] == BuildClaimTx(lottery[i], scriptSig, fee, w.height, w.change)
  {
    seq(|lottery|, i requires 0 <= i < |lottery| => BuildClaimTx(lottery[i], scriptSig, fee, w.height, w.change))
  }

  /** Every claim in `txs` is one the wallet manages to send. */
  predicate AllAccepted(txs: seq<ClaimTx>, accepts: ClaimTx -> bool) {
    forall i :: 0 <= i < |txs| ==> accepts(txs[i])
  }

  /**
   `r` sent an accepted prefix of `claims` and stopped at the first refusal:
   `ok` exactly when the prefix is all of `claims`, and otherwise the next
   claim is the one the wallet refused.
   */
  predicate AcceptedPrefix(r: EntryClaim, claims: seq<ClaimTx>, accepts: ClaimTx -> bool) {
    && r.sent <= claims
    && AllAccepted(r.sent, accepts)
    && (r.ok <==> |r.sent| == |claims|)
    && (!r.ok ==> !accepts(claims[|r.sent|]))
  }

  /** Sending an accepted claim first extends an accepted prefix of the remaining claims. */
  lemma {:induction false} AcceptedPrefixCons(tx: ClaimTx, more: EntryClaim, rest: seq<ClaimTx>, accepts: ClaimTx -> bool)
    requires accepts(tx) && AcceptedPrefix(more, rest, accepts)
    ensures AcceptedPrefix(EntryClaim(more.ok, [tx] + more.sent), [tx] + rest, accepts)
  {
    var sent := [tx] + more.sent;
    forall i | 0 < i < |sent| ensures accepts(sent[i]) {
      assert sent[i] == more.sent[i - 1];
    }
    if !more.ok {
      assert ([tx] + rest)[|sent|] == rest[|more.sent|];
    }
  }

  /** An accepted prefix reports success exactly when every claim is accepted. */
  lemma {:induction false} AcceptedPrefixOk(r: EntryClaim, claims: seq<ClaimTx>, accepts: ClaimTx -> bool)
    requires AcceptedPrefix(r, claims, accepts)
    ensures r.ok <==> AllAccepted(claims, accepts)
  {
    if r.ok {
      assert r.sent == claims;
    }
  }

  /**
   The `for` loop of `claimWinnings`: skips non-lottery candidates and sends a
   claim for each lottery candidate, returning `false` at the first claim the
   wallet cannot send. What it sends is an accepted prefix of the claims for
   the lottery candidates, in candidate order.
   */
  function ClaimLoop(cands: seq<Candidate>, scriptSig: seq<Op>, w: Wallet, fee: int, accepts: ClaimTx -> bool): (r: EntryClaim)
    ensures AcceptedPrefix(r, ClaimsFor(LotteryCandidates(cands), scriptSig, fee, w), accepts)
    decreases |cands|
  {
    if |cands| == 0 then EntryClaim(true, [])
    else if !cands[0].isLotteryEntry then
      LotteryCandidatesSkip(cands);
      ClaimLoop(cands[1..], scriptSig, w, fee, accepts)
    else
      var tx := BuildClaimTx(cands[0], scriptSig, fee, w.height, w.change);
      ClaimsForCons(cands, scriptSig, fee, w);
      if !accepts(tx) then EntryClaim(false, [])
      else
        var more := ClaimLoop(cands[1..], scriptSig, w, fee, accepts);
        AcceptedPrefixCons(tx, more, ClaimsFor(LotteryCandidates(cands[1..]), scriptSig, fee, w), accepts);
        EntryClaim(more.ok, [tx] + more.sent)
  }

  /** A lottery candidate at the front puts its claim at the front. */
  lemma {:induction false} ClaimsForCons(cands: seq<Candidate>, scriptSig: seq<Op>, fee: int, w: Wallet)
    requires |cands| > 0 && cands[0].isLotteryEntry
    ensures ClaimsFor(LotteryCandidates(cands), scriptSig, fee, w)
            == [BuildClaimTx(cands[0], scriptSig, fee, w.height, w.change)]
               + ClaimsFor(LotteryCandidates(cands[1..]), scriptSig, fee, w)
  {
    var lottery := LotteryCandidates(cands);
    LotteryCandidatesTake(cands);
    var a := ClaimsFor(lottery, scriptSig, fee, w);
    var b := [BuildClaimTx(cands[0], scriptSig, fee, w.height, w.change)]
             + ClaimsFor(LotteryCandidates(cands[1..]), scriptSig, fee, w);
    forall i | 0 <= i < |a| ensures a[i] == b[i] {
      if i > 0 {
        assert lottery[i] == LotteryCandidates(cands[1..])[i - 1];
      }
    }
  }

  /** The three refusals before the loop: balance below the fee, no candidate list, an empty one. */
  predicate ClaimGuardsPass(w: Wallet, fee: int) {
    w.balance >= fee && w.candidates.Some? && |w.candidates.value| > 0
  }

  /**
   `claimWinnings(guess)`: `true` exactly when the guards pass and the wallet
   sends the claim for every lottery candidate, each revealing the guess; the
   claims sent are the accepted prefix of those claims in candidate order.
   */
  function ClaimWinnings(guess: Int32, bits: Int32, w: Wallet, fee: int, accepts: ClaimTx -> bool): (r: EntryClaim)
    ensures !ClaimGuardsPass(w, fee) ==> !r.ok && r.sent == []
    ensures r.ok <==>
              && ClaimGuardsPass(w, fee)
              && AllAccepted(ClaimsFor(LotteryCandidates(w.candidates.value), RevealScript(guess, bits), fee, w), accepts)
    ensures ClaimGuardsPass(w, fee) ==>
              AcceptedPrefix(r, ClaimsFor(LotteryCandidates(w.candidates.value), RevealScript(guess, bits), fee, w), accepts)
    ensures AllAccepted(r.sent, accepts)
  {
    if w.balance < fee then EntryClaim(false, [])
    else if w.candidates.None? then EntryClaim(false, [])
    else if |w.candidates.value| == 0 then EntryClaim(false, [])
    else
      var r := ClaimLoop(w.candidates.value, RevealScript(guess, bits), w, fee, accepts);
      AcceptedPrefixOk(r, ClaimsFor(LotteryCandidates(w.candidates.value), RevealScript(guess, bits), fee, w), accepts);
      r
  }

  /**
   Candidates that are all non-lottery outputs still make `claimWinnings`
   report success, having sent nothing.
   */
  lemma {:induction false} NoLotteryCandidatesStillTrue(guess: Int32, bits: Int32, w: Wallet, fee: int, accepts: ClaimTx -> bool)
    requires ClaimGuardsPass(w, fee)
    requires forall c :: c in w.candidates.value ==> !c.isLotteryEntry
    ensures ClaimWinnings(guess, bits, w, fee, accepts) == EntryClaim(true, [])
  {
    assert LotteryCandidates(w.candidates.value) == [];
  }

  /**
   Every claim `claimWinnings` sends spends a lottery candidate, in candidate
   order, with the guess-only reveal script and the change address as payee.
   */
  lemma {:induction false} ClaimsSpendLotteryCandidates(guess: Int32, bits: Int32, w: Wallet, fee: int, accepts: ClaimTx -> bool)
    requires ClaimGuardsPass(w, fee)
    ensures var r := ClaimWinnings(guess, bits, w, fee, accepts);
            var lottery := LotteryCandidates(w.candidates.value);
            && |r.sent| <= |lottery|
            && forall i :: 0 <= i < |r.sent| ==>
                 && SpendsCandidate(r.sent[i], lottery[i], fee, w.height)
                 && r.sent[i].scriptSig == RevealScript(guess, bits)
                 && r.sent[i].payTo == w.change
  {
    var r := ClaimWinnings(guess, bits, w, fee, accepts);
    var lottery := LotteryCandidates(w.candidates.value);
    var claims := ClaimsFor(lottery, RevealScript(guess, bits), fee, w);
    forall i | 0 <= i < |r.sent|
      ensures r.sent[i] == BuildClaimTx(lottery[i], RevealScript(guess, bits), fee, w.height, w.change)
    {
      assert r.sent[i] == claims[i];
    }
  }

  /**
   A refused claim ends the loop with `false` but leaves the claims already
   sent in place: with two lottery candidates and a wallet that sends only
   the first claim, `claimWinnings` reports failure having sent one claim.
   */
  lemma {:induction false} RefusedClaimKeepsEarlierClaims(
    c1: Candidate, c2: Candidate, guess: Int32, bits: Int32, w: Wallet, fee: int, accepts: ClaimTx -> bool)
    requires c1.isLotteryEntry && c2.isLotteryEntry
    requires w.candidates == Some([c1, c2]) && w.balance >= fee
    requires accepts(BuildClaimTx(c1, RevealScript(guess, bits), fee, w.height, w.change))
    requires !accepts(BuildClaimTx(c2, RevealScript(guess, bits), fee, w.height, w.change))
    ensures ClaimWinnings(guess, bits, w, fee, accepts)
            == EntryClaim(false, [BuildClaimTx(c1, RevealScript(guess, bits), fee, w.height, w.change)])
  {
    var script := RevealScript(guess, bits);
    assert [c1, c2][1..] == [c2];
    assert ClaimLoop([c2], script, w, fee, accepts) == EntryClaim(false, []);
  }

  /** The auto-enter listener's state: the `alreadyEntered` latch and the depth callbacks registered but not yet run. */
  datatype AutoEnter = AutoEnter(entered: bool, pending: nat)

  /**
   `onCoinsReceived`: with the latch set, nothing; otherwise registers one
   callback that enters once the funding transaction is one block deep.
   */
  function OnCoinsReceived(s: AutoEnter): (t: AutoEnter)
    ensures s.entered ==> t == s
    ensures !s.entered ==> !t.entered && t.pending == s.pending + 1
  {
    if s.entered then s else AutoEnter(false, s.pending + 1)
  }

  /**
   The depth callback's `onSuccess`: runs `lotteryEntry()` and then sets the
   latch, unless `lotteryEntry()` threw (its outcome is `Aborted`), which
   skips the assignment. The source runs the entry whatever the latch says
   (`recheckLatch` false); with `recheckLatch` the callback first re-reads
   the latch and does nothing once it is set. Returns the new state and
   whether an entry was attempted; with no callback registered nothing runs.
   */
  function OnDepthReached(s: AutoEnter, outcome: EnterOutcome, recheckLatch: bool): (r: (AutoEnter, bool))
    ensures r.1 <==> s.pending > 0 && !(recheckLatch && s.entered)
    ensures s.pending > 0 ==> r.0.pending == s.pending - 1
    ensures r.1 ==> (r.0.entered <==> s.entered || !outcome.Aborted?)
    ensures !r.1 ==> r.0.entered == s.entered
    ensures s.pending == 0 ==> r.0 == s
  {
    if s.pending == 0 then (s, false)
    else if recheckLatch && s.entered then (AutoEnter(true, s.pending - 1), false)
    else (AutoEnter(s.entered || !outcome.Aborted?, s.pending - 1), true)
  }

  /** One event the auto-enter listener sees. */
  datatype EnterEvent = CoinsReceived | DepthReached(outcome: EnterOutcome)

  /** A run of the listener: its final state, the entries attempted and the entry transactions sent. */
  datatype AutoRun = AutoRun(state: AutoEnter, attempts: nat, sent: nat)

  /** The listener over a sequence of events. */
  function AutoEnterRun(s: AutoEnter, events: seq<EnterEvent>, recheckLatch: bool): (r: AutoRun)
    ensures r.sent <= r.attempts <= |events|
    ensures r.state.entered ==> s.entered || r.attempts > 0
    decreases |events|
  {
    if |events| == 0 then AutoRun(s, 0, 0)
    else match events[0]
      case CoinsReceived => AutoEnterRun(OnCoinsReceived(s), events[1..], recheckLatch)
      case DepthReached(o) =>
        var step := OnDepthReached(s, o, recheckLatch);
        var rest := AutoEnterRun(step.0, events[1..], recheckLatch);
        AutoRun(rest.state, rest.attempts + (if step.1 then 1 else 0),
                rest.sent + (if step.1 && o.Sent? then 1 else 0))
  }

  /**
   As written, the latch is read when funds arrive, not when the callback
   runs: two payments received before the first is one block deep make two
   entry transactions.
   */
  lemma {:induction false} TwoPaymentsTwoEntries(o1: EnterOutcome, o2: EnterOutcome)
    requires o1.Sent? && o2.Sent?
    ensures AutoEnterRun(AutoEnter(false, 0), [CoinsReceived, CoinsReceived, DepthReached(o1), DepthReached(o2)], false)
            == AutoRun(AutoEnter(true, 0), 2, 2)
  {
    var evs := [CoinsReceived, CoinsReceived, DepthReached(o1), DepthReached(o2)];
    assert evs[1..] == [CoinsReceived, DepthReached(o1), DepthReached(o2)];
    assert evs[2..] == [DepthReached(o1), DepthReached(o2)];
    assert evs[3..] == [DepthReached(o2)];
    assert AutoEnterRun(AutoEnter(true, 0), [], false) == AutoRun(AutoEnter(true, 0), 0, 0);
    assert AutoEnterRun(AutoEnter(true, 1), evs[3..], false) == AutoRun(AutoEnter(true, 0), 1, 1);
    assert AutoEnterRun(AutoEnter(false, 2), evs[2..], false) == AutoRun(AutoEnter(true, 0), 2, 2);
    assert AutoEnterRun(AutoEnter(false, 1), evs[1..], false) == AutoRun(AutoEnter(true, 0), 2, 2);
  }

  /**
   With the latch re-read in the callback, the listener sends at most one
   entry transaction, and none once the latch is set, whatever the events.
   */
  lemma {:induction false} RecheckedSendsAtMostOnce(s: AutoEnter, events: seq<EnterEvent>)
    ensures AutoEnterRun(s, events, true).sent <= (if s.entered then 0 else 1)
    ensures s.entered ==> AutoEnterRun(s, events, true).attempts == 0
    decreases |events|
  {
    if |events| > 0 {
      match events[0]
      case CoinsReceived =>
        RecheckedSendsAtMostOnce(OnCoinsReceived(s), events[1..]);
      case DepthReached(o) =>
        var step := OnDepthReached(s, o, true);
        RecheckedSendsAtMostOnce(step.0, events[1..]);
    }
  }

  /**
   A refusal for low balance still sets the latch (the method returns
   normally), so the listener never enters after it; an abort does not.
   */
  lemma {:induction false} LowBalanceLatches(needed: int, balance: int)
    ensures OnDepthReached(AutoEnter(false, 1), InsufficientBalance(needed, balance), false) == (AutoEnter(true, 0), true)
    ensures OnDepthReached(AutoEnter(false, 1), Aborted, false) == (AutoEnter(false, 0), true)
    ensures OnCoinsReceived(AutoEnter(true, 0)) == AutoEnter(true, 0)
  {
  }

  /**
   Once latched with no callback pending, the listener makes no further
   entry attempt, whatever events follow.
   */
  lemma {:induction false} LatchedIsIdle(events: seq<EnterEvent>)
    ensures AutoEnterRun(AutoEnter(true, 0), events, false) == AutoRun(AutoEnter(true, 0), 0, 0)
    decreases |events|
  {
    if |events| > 0 {
      LatchedIsIdle(events[1..]);
    }
  }

  /**
   The auto-claim trigger: the last height seen reaches the current round's
   start plus the delay, and a previous round exists (start minus period is
   positive), both in Java `int` arithmetic.
   */
  predicate InClaimWindow(height: Int32, current: RoundParams) {
    height >= Wrap32(current.start + current.delay) && Wrap32(current.start - current.period) > 0
  }

  /** What `onWalletChanged` did: the new latch and the claim it attempted, if any. */
  datatype ClaimAttempt = ClaimAttempt(claimed: bool, attempt: Option<EntryClaim>)

  /**
   `onWalletChanged`: with the `alreadyClaimed` latch set, nothing; inside the
   claim window it claims with a uniform guess `rand` in 1..100
   (`(int)(Math.random() * 100 + 1)`) and sets the latch only if the claim
   reports success.
   */
  function OnWalletChanged(
    claimed: bool, current: RoundParams, rand: Int32, bits: Int32, w: Wallet, fee: int,
    accepts: ClaimTx -> bool): (r: ClaimAttempt)
    requires 1 <= rand <= 100
    ensures r.attempt.Some? <==> !claimed && InClaimWindow(w.height, current)
    ensures r.attempt.Some? ==>
              r.attempt.value.ok ==> ClaimGuardsPass(w, fee)
    ensures r.claimed <==> claimed || (r.attempt.Some? && r.attempt.value.ok)
    ensures r.attempt.Some? ==>
              (r.attempt.value.ok <==>
                 && ClaimGuardsPass(w, fee)
                 && AllAccepted(ClaimsFor(LotteryCandidates(w.candidates.value), RevealScript(rand, bits), fee, w), accepts))
  {
    if claimed then ClaimAttempt(true, None)
    else if !InClaimWindow(w.height, current) then ClaimAttempt(false, None)
    else
      var c := ClaimWinnings(rand, bits, w, fee, accepts);
      ClaimAttempt(c.ok, Some(c))
  }

  /**
   When no sum overflows, the trigger reads: the height has reached
   `start + delay` and `start > period`.
   */
  lemma {:induction false} InClaimWindowPlain(height: Int32, current: RoundParams)
    requires InInt32Range(current.start + current.delay) && InInt32Range(current.start - current.period)
    ensures InClaimWindow(height, current) <==>
              height >= current.start + current.delay && current.start > current.period
  {
  }

  /**
   Once the wallet has moved to the round after `prev`, the trigger height
   `start + delay` of the current round is the claim lock height of `prev`,
   the first height at which its claim branch can be spent, and the
   previous-round condition holds.
   */
  lemma {:induction false} TriggerIsPreviousClaimLock(prev: RoundParams, height: Int32)
    requires Positive(prev) && NoOverflow(prev) && prev.start > 0
    ensures var current := RoundParams(RevealOpensAt(prev), prev.period, prev.delay, prev.claimingPeriod);
            InClaimWindow(height, current) <==> height >= ClaimLockHeight(prev)
  {
    WindowOrdered(prev);
    var current := RoundParams(RevealOpensAt(prev), prev.period, prev.delay, prev.claimingPeriod);
    assert current.start == prev.start + prev.period;
    assert Wrap32(current.start + current.delay) == ClaimLockHeight(prev);
    assert Wrap32(current.start - current.period) == prev.start;
  }
}
