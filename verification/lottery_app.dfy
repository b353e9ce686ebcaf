/**
 The `LotteryApp` revision: entering with a guess records an entry once the
 funding transaction is broadcast, and claiming reveals against the earliest
 recorded entry for the guess.

 The wallet is read through parameters: its balance, the claim candidates it
 reports (`None` outside the claiming period), the last block height seen and
 a change address; `accepts(tx)` says whether the wallet manages to fund and
 send `tx` (false: `InsufficientMoneyException`).
 */
module LotteryApp {
  import opened Wrappers
  import opened JavaInt
  import opened Script
  import opened Entries
  import opened EntryStore
  import opened Round
  import opened EntryScript
  import opened GuessScript
  import opened Ledger

  /** `enterLottery`'s outcome and the entry store after the broadcast listener ran. */
  datatype AppEnter = AppEnter(outcome: EnterOutcome, store: Store)

  /**
   `enterLottery(guess)`. `params` is `None` when there is no wallet (the
   entry script is then `null` and the call dies on it); `sendFunded` is false
   when `sendCoins` throws; `broadcastDone` says whether the broadcast listener
   fired, which records `Entry(txHash, guess, now)`.
   */
  function EnterLottery(
    params: Option<RoundParams>, guess: Int32, rollover: seq<Op>,
    balance: int, minNonDust: int, fee: int, sendFunded: bool,
    broadcastDone: bool, txHash: Hash, now: int, store: Store): (r: AppEnter)
    ensures r.outcome.Aborted? <==>
              params.None? || (balance >= Stake + minNonDust + fee && !sendFunded)
    ensures r.outcome.InsufficientBalance? <==> params.Some? && balance < Stake + minNonDust + fee
    ensures r.outcome.InsufficientBalance? ==>
              r.outcome.needed == Stake + minNonDust + fee && r.outcome.balance == balance
    ensures r.outcome.Sent? ==>
              && r.outcome.tx.value == Stake
              && Disassemble(r.outcome.tx.script)
                 == Some(RoundTemplate(params.value, Some(Int32ToBytes(guess)), rollover))
    ensures r.outcome.Sent? && broadcastDone ==>
              multiset(r.store) == multiset(store) + multiset{Entry(txHash, guess, now)}
              && Matching(r.store, guess) == Matching(store, guess) + [Entry(txHash, guess, now)]
    ensures !(r.outcome.Sent? && broadcastDone) ==> r.store == store
  {
    match EntryScriptForGuess(params, guess, rollover)
    case None => AppEnter(Aborted, store)
    case Some(script) =>
      var needed := EntryBalanceNeeded(minNonDust, fee);
      if balance < needed then AppEnter(InsufficientBalance(needed, balance), store)
      else if !sendFunded then AppEnter(Aborted, store)
      else
        var tx := EntryTx(Stake, script);
        if broadcastDone then AppEnter(Sent(tx), Record(store, Entry(txHash, guess, now)))
        else AppEnter(Sent(tx), store)
  }

  /** Where a claim attempt stopped. */
  datatype ClaimStatus =
    | LowBalance          // balance below the fee
    | NotInClaimPeriod    // the wallet reported no candidate list
    | NoCandidates        // the candidate list was empty
    | NoMatchingEntry     // no stored entry for the guess when a lottery candidate came up
    | SendFailed          // the wallet could not send a claim
    | Finished            // every lottery candidate got a claim

  /**
   A claim attempt's record: where it stopped, the claims sent, the entries
   taken from the store (in order), and the store left behind.
   */
  datatype ClaimRun = ClaimRun(status: ClaimStatus, sent: seq<ClaimTx>, consumed: seq<Entry>, store: Store)

  /**
   The `i`-th claim sent spends the `i`-th lottery candidate and reveals the
   `i`-th entry taken.
   */
  ghost predicate ClaimsMatchCandidates(r: ClaimRun, lottery: seq<Candidate>, guess: Int32, bits: Int32, w: Wallet, fee: int) {
    && |r.sent| <= |lottery|
    && |r.sent| <= |r.consumed|
    && forall i :: 0 <= i < |r.sent| ==>
         && SpendsCandidate(r.sent[i], lottery[i], fee, w.height)
         && r.sent[i].payTo == w.change
         && r.sent[i].scriptSig == [Data(r.consumed[i].hash)] + RevealScript(guess, bits)
  }

  /** Entries were taken earliest first, and none left behind with the guess is earlier. */
  ghost predicate ConsumedInDateOrder(consumed: seq<Entry>, rest: Store, guess: Int32) {
    && (forall i, j :: 0 <= i < j < |consumed| ==> consumed[i].date <= consumed[j].date)
    && (forall i, e :: 0 <= i < |consumed| && e in rest && e.guess == guess ==> consumed[i].date <= e.date)
  }

  /**
   The `for` loop of `claimWinnings` over the candidates: non-lottery
   candidates are skipped; for a lottery candidate the earliest stored entry
   with the guess is taken and a claim revealing it is sent. The loop stops at
   the first candidate without a stored entry or whose claim cannot be sent.
   */
  function ClaimEach(
    cands: seq<Candidate>, guess: Int32, bits: Int32, w: Wallet, fee: int,
    accepts: ClaimTx -> bool, store: Store): (r: ClaimRun)
    ensures r.status in {NoMatchingEntry, SendFailed, Finished}
    ensures |r.consumed| == |r.sent| + (if r.status == SendFailed then 1 else 0)
    ensures |r.consumed| == 0 ==> r.store == store
    ensures forall e :: e in r.consumed ==> e.guess == guess
    ensures r.status == NoMatchingEntry ==> !HasGuess(r.store, guess)
    decreases |cands|
  {
    if |cands| == 0 then ClaimRun(Finished, [], [], store)
    else if !cands[0].isLotteryEntry then ClaimEach(cands[1..], guess, bits, w, fee, accepts, store)
    else
      var rev := RevealScriptFromStore(store, guess, bits);
      match rev.script
      case None => ClaimRun(NoMatchingEntry, [], [], store)
      case Some(script) =>
        var e := rev.taken.value;
        var tx := BuildClaimTx(cands[0], script, fee, w.height, w.change);
        if !accepts(tx) then ClaimRun(SendFailed, [], [e], rev.rest)
        else
          var more := ClaimEach(cands[1..], guess, bits, w, fee, accepts, rev.rest);
          ClaimRun(more.status, [tx] + more.sent, [e] + more.consumed, more.store)
  }

  /**
   The loop's claims go to the lottery candidates in order, one per candidate
   until it stops, each revealing the entry taken for it; when it finishes,
   every lottery candidate got one.
   */
  lemma {:induction false} ClaimEachMatches(
    cands: seq<Candidate>, guess: Int32, bits: Int32, w: Wallet, fee: int,
    accepts: ClaimTx -> bool, store: Store)
    ensures var r := ClaimEach(cands, guess, bits, w, fee, accepts, store);
            && ClaimsMatchCandidates(r, LotteryCandidates(cands), guess, bits, w, fee)
            && (r.status == Finished ==> |r.sent| == |LotteryCandidates(cands)|)
    decreases |cands|
  {
    if |cands| == 0 {
    } else if !cands[0].isLotteryEntry {
      LotteryCandidatesSkip(cands);
      ClaimEachMatches(cands[1..], guess, bits, w, fee, accepts, store);
    } else {
      var rev := RevealScriptFromStore(store, guess, bits);
      if rev.script.Some? {
        RevealTakesEarliest(store, guess, bits);
        var e := rev.taken.value;
        var tx := BuildClaimTx(cands[0], rev.script.value, fee, w.height, w.change);
        if accepts(tx) {
          ClaimEachMatches(cands[1..], guess, bits, w, fee, accepts, rev.rest);
          var more := ClaimEach(cands[1..], guess, bits, w, fee, accepts, rev.rest);
          PrependKeepsMatch(cands, tx, e, more, guess, bits, w, fee);
          assert LotteryCandidates(cands) == [cands[0]] + LotteryCandidates(cands[1..]);
        }
      }
    }
  }

  /**
   Every claim sent was accepted; the loop stopped early only at a lottery
   candidate it could not claim; and a failed send is the claim for the next
   lottery candidate, revealing the entry taken last, being refused.
   */
  ghost predicate ClaimsAccepted(
    r: ClaimRun, lottery: seq<Candidate>, guess: Int32, bits: Int32, w: Wallet, fee: int, accepts: ClaimTx -> bool)
  {
    && (forall i :: 0 <= i < |r.sent| ==> accepts(r.sent[i]))
    && (r.status != Finished ==> |r.sent| < |lottery|)
    && (r.status == SendFailed ==>
          && |r.sent| < |lottery| && |r.sent| < |r.consumed|
          && !accepts(BuildClaimTx(lottery[|r.sent|], [Data(r.consumed[|r.sent|].hash)] + RevealScript(guess, bits),
                                   fee, w.height, w.change)))
  }

  /** The loop sends every claim the wallet accepts, and stops only at one it refuses or cannot build. */
  lemma {:induction false} ClaimEachProgress(
    cands: seq<Candidate>, guess: Int32, bits: Int32, w: Wallet, fee: int,
    accepts: ClaimTx -> bool, store: Store)
    ensures ClaimsAccepted(ClaimEach(cands, guess, bits, w, fee, accepts, store), LotteryCandidates(cands),
                           guess, bits, w, fee, accepts)
    decreases |cands|
  {
    if |cands| == 0 {
    } else if !cands[0].isLotteryEntry {
      LotteryCandidatesSkip(cands);
      ClaimEachProgress(cands[1..], guess, bits, w, fee, accepts, store);
    } else {
      LotteryCandidatesTake(cands);
      var rev := RevealScriptFromStore(store, guess, bits);
      if rev.script.Some? {
        RevealTakesEarliest(store, guess, bits);
        var e := rev.taken.value;
        var tx := BuildClaimTx(cands[0], rev.script.value, fee, w.height, w.change);
        if accepts(tx) {
          ClaimEachProgress(cands[1..], guess, bits, w, fee, accepts, rev.rest);
          var more := ClaimEach(cands[1..], guess, bits, w, fee, accepts, rev.rest);
          PrependKeepsAccepted(cands[0], LotteryCandidates(cands[1..]), tx, e, more, guess, bits, w, fee, accepts);
        }
      }
    }
  }

  /** An accepted claim for the front lottery candidate extends the loop's acceptance record. */
  lemma {:induction false} PrependKeepsAccepted(
    c: Candidate, lottery: seq<Candidate>, tx: ClaimTx, e: Entry, more: ClaimRun,
    guess: Int32, bits: Int32, w: Wallet, fee: int, accepts: ClaimTx -> bool)
    requires accepts(tx)
    requires |more.consumed| >= |more.sent|
    requires ClaimsAccepted(more, lottery, guess, bits, w, fee, accepts)
    ensures ClaimsAccepted(ClaimRun(more.status, [tx] + more.sent, [e] + more.consumed, more.store),
                           [c] + lottery, guess, bits, w, fee, accepts)
  {
    var r := ClaimRun(more.status, [tx] + more.sent, [e] + more.consumed, more.store);
    forall i | 0 <= i < |r.sent| ensures accepts(r.sent[i]) {
      if i > 0 { assert r.sent[i] == more.sent[i - 1]; }
    }
    if r.status == SendFailed {
      assert ([c] + lottery)[|r.sent|] == lottery[|more.sent|];
      assert r.consumed[|r.sent|] == more.consumed[|more.sent|];
    }
  }

  /**
   The loop only moves entries out of the store: what is left plus what was
   taken is the original store.
   */
  lemma {:induction false} ClaimEachConserves(
    cands: seq<Candidate>, guess: Int32, bits: Int32, w: Wallet, fee: int,
    accepts: ClaimTx -> bool, store: Store)
    ensures var r := ClaimEach(cands, guess, bits, w, fee, accepts, store);
            multiset(r.store) + multiset(r.consumed) == multiset(store)
    decreases |cands|
  {
    if |cands| == 0 {
    } else if !cands[0].isLotteryEntry {
      ClaimEachConserves(cands[1..], guess, bits, w, fee, accepts, store);
    } else {
      var rev := RevealScriptFromStore(store, guess, bits);
      if rev.script.Some? {
        RevealTakesEarliest(store, guess, bits);
        var e := rev.taken.value;
        var tx := BuildClaimTx(cands[0], rev.script.value, fee, w.height, w.change);
        if accepts(tx) {
          ClaimEachConserves(cands[1..], guess, bits, w, fee, accepts, rev.rest);
          var more := ClaimEach(cands[1..], guess, bits, w, fee, accepts, rev.rest);
          assert multiset([e] + more.consumed) == multiset([e]) + multiset(more.consumed);
        }
      }
    }
  }

  /** The loop takes entries earliest first, and leaves none with the guess that is earlier. */
  lemma {:induction false} ClaimEachInDateOrder(
    cands: seq<Candidate>, guess: Int32, bits: Int32, w: Wallet, fee: int,
    accepts: ClaimTx -> bool, store: Store)
    ensures var r := ClaimEach(cands, guess, bits, w, fee, accepts, store);
            ConsumedInDateOrder(r.consumed, r.store, guess)
    decreases |cands|
  {
    if |cands| == 0 {
    } else if !cands[0].isLotteryEntry {
      ClaimEachInDateOrder(cands[1..], guess, bits, w, fee, accepts, store);
    } else {
      var rev := RevealScriptFromStore(store, guess, bits);
      if rev.script.Some? {
        RevealTakesEarliest(store, guess, bits);
        var e := rev.taken.value;
        var tx := BuildClaimTx(cands[0], rev.script.value, fee, w.height, w.change);
        if !accepts(tx) {
          RemainingNotEarlier(e, store, rev.rest, guess);
        } else {
          ClaimEachConserves(cands[1..], guess, bits, w, fee, accepts, rev.rest);
          ClaimEachInDateOrder(cands[1..], guess, bits, w, fee, accepts, rev.rest);
          var more := ClaimEach(cands[1..], guess, bits, w, fee, accepts, rev.rest);
          PrependKeepsDateOrder(e, store, rev.rest, more, guess);
        }
      }
    }
  }

  /** What one reveal does to the store, in the terms the claim loop needs. */
  lemma {:induction false} RevealTakesEarliest(store: Store, guess: Int32, bits: Int32)
    requires HasGuess(store, guess)
    ensures var rev := RevealScriptFromStore(store, guess, bits);
            && rev.script.Some? && rev.taken.Some?
            && multiset(rev.rest) + multiset([rev.taken.value]) == multiset(store)
            && rev.taken.value.guess == guess
            && (forall x :: x in store && x.guess == guess ==> rev.taken.value.date <= x.date)
            && rev.script.value == [Data(rev.taken.value.hash)] + RevealScript(guess, bits)
  {
    var rev := RevealScriptFromStore(store, guess, bits);
    var i :| && IsEarliest(store, guess, i) && rev.taken == Some(store[i]) && rev.rest == RemoveAt(store, i)
             && DisassembleReveal(rev.script.value) == Some(RevealFields(Some(store[i].hash), guess, bits));
    forall x | x in store && x.guess == guess
      ensures store[i].date <= x.date
    {
      var j :| 0 <= j < |store| && store[j] == x;
    }
    AssembleDisassembleReveal(rev.script.value);
    assert rev.script.value == [Data(store[i].hash)] + AssembleReveal(RevealFields(None, guess, bits));
  }

  /** A claim for the front lottery candidate extends the loop's candidate-by-candidate match. */
  lemma {:induction false} PrependKeepsMatch(
    cands: seq<Candidate>, tx: ClaimTx, e: Entry, more: ClaimRun,
    guess: Int32, bits: Int32, w: Wallet, fee: int)
    requires |cands| > 0 && cands[0].isLotteryEntry
    requires SpendsCandidate(tx, cands[0], fee, w.height) && tx.payTo == w.change
    requires tx.scriptSig == [Data(e.hash)] + RevealScript(guess, bits)
    requires ClaimsMatchCandidates(more, LotteryCandidates(cands[1..]), guess, bits, w, fee)
    ensures ClaimsMatchCandidates(
              ClaimRun(more.status, [tx] + more.sent, [e] + more.consumed, more.store),
              LotteryCandidates(cands), guess, bits, w, fee)
  {
    var r := ClaimRun(more.status, [tx] + more.sent, [e] + more.consumed, more.store);
    var lottery := LotteryCandidates(cands);
    assert lottery == [cands[0]] + LotteryCandidates(cands[1..]);
    forall i | 0 <= i < |r.sent|
      ensures SpendsCandidate(r.sent[i], lottery[i], fee, w.height)
      ensures r.sent[i].payTo == w.change
      ensures r.sent[i].scriptSig == [Data(r.consumed[i].hash)] + RevealScript(guess, bits)
    {
      if i > 0 {
        assert r.sent[i] == more.sent[i - 1] && r.consumed[i] == more.consumed[i - 1];
        assert lottery[i] == LotteryCandidates(cands[1..])[i - 1];
      }
    }
  }

  /** A member of one part of a split multiset is a member of the whole. */
  lemma {:induction false} InPart(x: Entry, a: seq<Entry>, b: seq<Entry>, whole: seq<Entry>)
    requires multiset(a) + multiset(b) == multiset(whole)
    ensures (x in a || x in b) ==> x in whole
  {
    if x in a {
      assert x in multiset(a);
      assert x in multiset(whole);
    } else if x in b {
      assert x in multiset(b);
      assert x in multiset(whole);
    }
  }

  /** No entry with the guess left behind is earlier than the one taken. */
  lemma {:induction false} RemainingNotEarlier(e: Entry, store: Store, rest: Store, guess: Int32)
    requires multiset(rest) + multiset([e]) == multiset(store)
    requires forall x :: x in store && x.guess == guess ==> e.date <= x.date
    ensures forall x :: x in rest && x.guess == guess ==> e.date <= x.date
  {
    forall x | x in rest && x.guess == guess ensures e.date <= x.date {
      InPart(x, rest, [e], store);
    }
  }

  /** Taking the earliest entry first keeps the consumed entries in date order. */
  lemma {:induction false} PrependKeepsDateOrder(e: Entry, store: Store, rest: Store, more: ClaimRun, guess: Int32)
    requires multiset(rest) + multiset([e]) == multiset(store)
    requires forall x :: x in store && x.guess == guess ==> e.date <= x.date
    requires multiset(more.store) + multiset(more.consumed) == multiset(rest)
    requires forall x :: x in more.consumed ==> x.guess == guess
    requires ConsumedInDateOrder(more.consumed, more.store, guess)
    ensures ConsumedInDateOrder([e] + more.consumed, more.store, guess)
  {
    RemainingNotEarlier(e, store, rest, guess);
    var consumed := [e] + more.consumed;
    forall i, j | 0 <= i < j < |consumed|
      ensures consumed[i].date <= consumed[j].date
    {
      if i == 0 {
        InPart(consumed[j], more.store, more.consumed, rest);
      } else {
        assert consumed[i] == more.consumed[i - 1] && consumed[j] == more.consumed[j - 1];
      }
    }
    forall i, x | 0 <= i < |consumed| && x in more.store && x.guess == guess
      ensures consumed[i].date <= x.date
    {
      if i == 0 {
        InPart(x, more.store, more.consumed, rest);
      } else {
        assert consumed[i] == more.consumed[i - 1];
      }
    }
  }

  /**
   `claimWinnings(guess)`: refuses below the fee, outside the claiming period
   and without candidates, leaving the store alone; otherwise runs the loop.
   */
  function ClaimWinnings(
    guess: Int32, bits: Int32, w: Wallet, fee: int, accepts: ClaimTx -> bool, store: Store): (r: ClaimRun)
    ensures r.status == LowBalance <==> w.balance < fee
    ensures r.status == NotInClaimPeriod <==> w.balance >= fee && w.candidates.None?
    ensures r.status == NoCandidates <==> w.balance >= fee && w.candidates == Some([])
    ensures r.status in {LowBalance, NotInClaimPeriod, NoCandidates} ==>
              r.store == store && r.sent == [] && r.consumed == []
    ensures multiset(r.store) + multiset(r.consumed) == multiset(store)
    ensures forall e :: e in r.consumed ==> e.guess == guess
    ensures w.candidates.Some? ==> ClaimsMatchCandidates(r, LotteryCandidates(w.candidates.value), guess, bits, w, fee)
    ensures r.status == Finished ==> |r.sent| == |LotteryCandidates(w.candidates.value)|
    ensures ConsumedInDateOrder(r.consumed, r.store, guess)
    ensures r.status == NoMatchingEntry ==> !HasGuess(r.store, guess)
    ensures forall i :: 0 <= i < |r.sent| ==> accepts(r.sent[i])
    ensures |r.consumed| == |r.sent| + (if r.status == SendFailed then 1 else 0)
    ensures r.status in {NoMatchingEntry, SendFailed, Finished} ==>
              w.candidates.Some? && ClaimsAccepted(r, LotteryCandidates(w.candidates.value), guess, bits, w, fee, accepts)
  {
    if w.balance < fee then ClaimRun(LowBalance, [], [], store)
    else if w.candidates.None? then ClaimRun(NotInClaimPeriod, [], [], store)
    else if |w.candidates.value| == 0 then ClaimRun(NoCandidates, [], [], store)
    else
      ClaimEachMatches(w.candidates.value, guess, bits, w, fee, accepts, store);
      ClaimEachConserves(w.candidates.value, guess, bits, w, fee, accepts, store);
      ClaimEachInDateOrder(w.candidates.value, guess, bits, w, fee, accepts, store);
      ClaimEachProgress(w.candidates.value, guess, bits, w, fee, accepts, store);
      ClaimEach(w.candidates.value, guess, bits, w, fee, accepts, store)
  }

  /**
   A claim for a guess this process never entered, with a lottery candidate
   available, stops with `NoMatchingEntry`: nothing sent, store unchanged.
   */
  lemma {:induction false} ClaimWithoutEntry(guess: Int32, bits: Int32, w: Wallet, fee: int, accepts: ClaimTx -> bool, store: Store)
    requires w.balance >= fee && w.candidates.Some?
    requires exists c :: c in w.candidates.value && c.isLotteryEntry
    requires !HasGuess(store, guess)
    ensures var r := ClaimWinnings(guess, bits, w, fee, accepts, store);
            r.status == NoMatchingEntry && r.sent == [] && r.store == store
  {
    var r := ClaimWinnings(guess, bits, w, fee, accepts, store);
    if |r.consumed| > 0 {
      InPart(r.consumed[0], r.store, r.consumed, store);
    }
    assert |LotteryCandidates(w.candidates.value)| > 0;
    assert r.status == NoMatchingEntry;
  }

  /**
   With one lottery candidate, a stored entry for the guess and a wallet that
   sends the claim, `claimWinnings` sends exactly that claim and finishes.
   */
  lemma {:induction false} ClaimSingleCandidate(
    c: Candidate, guess: Int32, bits: Int32, w: Wallet, fee: int, accepts: ClaimTx -> bool,
    store: Store, e: Entry, rest: Store)
    requires c.isLotteryEntry && w.candidates == Some([c]) && w.balance >= fee
    requires RevealScriptFromStore(store, guess, bits)
             == Reveal(Some([Data(e.hash)] + RevealScript(guess, bits)), Some(e), rest)
    requires accepts(BuildClaimTx(c, [Data(e.hash)] + RevealScript(guess, bits), fee, w.height, w.change))
    ensures ClaimWinnings(guess, bits, w, fee, accepts, store)
            == ClaimRun(Finished, [BuildClaimTx(c, [Data(e.hash)] + RevealScript(guess, bits), fee, w.height, w.change)],
                        [e], rest)
  {
    assert [c][1..] == [];
    assert ClaimEach([], guess, bits, w, fee, accepts, rest) == ClaimRun(Finished, [], [], rest);
  }

  /**
   The entry `enterLottery` recorded is the one the next claim for that guess
   reveals, when it is the only stored entry with the guess: the claim spends
   the lottery candidate with that entry's hash and the store is back to what
   it was before the entry.
   */
  lemma {:induction false} EnterThenClaimReveals(
    p: RoundParams, guess: Int32, rollover: seq<Op>, balance: int, minNonDust: int, fee: int,
    txHash: Hash, now: int, store: Store, bits: Int32, c: Candidate, w: Wallet, accepts: ClaimTx -> bool)
    requires balance >= Stake + minNonDust + fee
    requires !HasGuess(store, guess)
    requires c.isLotteryEntry && w.candidates == Some([c]) && w.balance >= fee
    requires accepts(BuildClaimTx(c, [Data(txHash)] + RevealScript(guess, bits), fee, w.height, w.change))
    ensures var entered := EnterLottery(Some(p), guess, rollover, balance, minNonDust, fee, true, true, txHash, now, store);
            var r := ClaimWinnings(guess, bits, w, fee, accepts, entered.store);
            && entered.outcome.Sent?
            && r.status == Finished
            && r.sent == [BuildClaimTx(c, [Data(txHash)] + RevealScript(guess, bits), fee, w.height, w.change)]
            && r.consumed == [Entry(txHash, guess, now)]
            && r.store == store
  {
    var e := Entry(txHash, guess, now);
    var entered := EnterLottery(Some(p), guess, rollover, balance, minNonDust, fee, true, true, txHash, now, store);
    assert entered.store == Record(store, e);
    RecordThenTake(store, e);
    RevealRevisionsAgree(entered.store, guess, bits);
    assert RevealScriptFromStore(entered.store, guess, bits)
           == Reveal(Some([Data(e.hash)] + RevealScript(guess, bits)), Some(e), store);
    ClaimSingleCandidate(c, guess, bits, w, fee, accepts, entered.store, e, store);
  }

  /**
   A commitment and a reveal built for the same guess agree: the four bytes
   in the entry script decode to the guess the reveal pushes, and the reveal
   pushes one proof-strength value on both sides of `FLEXIHASH`.
   */
  lemma {:induction false} CommitmentMatchesReveal(p: RoundParams, guess: Int32, rollover: seq<Op>, store: Store, bits: Int32)
    requires HasGuess(store, guess)
    ensures var commit := Disassemble(EntryScriptForGuess(Some(p), guess, rollover).value).value;
            var unlocked := DisassembleReveal(RevealScriptFromStore(store, guess, bits).script.value).value;
            && commit.commitment.Some? && |commit.commitment.value| == 4
            && BytesToInt32(commit.commitment.value) == unlocked.guess
            && unlocked.bits == bits
  {
    CommittedGuessRecoverable(p, guess, rollover);
  }
}
