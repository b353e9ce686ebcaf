/**
 The reveal (guess) script a claimant supplies to unlock the claim branch:

   [<entry tx hash>] <guess> <bits> FLEXIHASH <bits> 1

 `LotteryEntry` builds it from the guess alone; `LotteryApp` first takes the
 earliest stored entry with that guess out of the store and pushes its hash
 in front.
 */
module GuessScript {
  import opened Wrappers
  import opened JavaInt
  import opened Script
  import opened Entries
  import opened EntryStore

  /** The values a reveal script carries. */
  datatype RevealFields = RevealFields(fundingHash: Option<seq<byte>>, guess: int, bits: int)

  /** The reveal skeleton filled with the given values. */
  function AssembleReveal(f: RevealFields): (ops: seq<Op>)
    ensures |ops| == (if f.fundingHash.Some? then 6 else 5)
    ensures ops[|ops| - 1] == SmallNum(1)
  {
    (if f.fundingHash.Some? then [Data(f.fundingHash.value)] else [])
    + [Num(f.guess), Num(f.bits), Code(FlexiHash), Num(f.bits), SmallNum(1)]
  }

  /**
   Reads a reveal script back, or `None` when it lacks the skeleton or its two
   proof-strength operands differ.
   */
  function DisassembleReveal(ops: seq<Op>): (r: Option<RevealFields>)
    ensures r.Some? ==> |ops| in {5, 6} && ops[|ops| - 4] == ops[|ops| - 2]
  {
    if !(|ops| == 5 || (|ops| == 6 && ops[0].Data?)) then None
    else
      var k := |ops| - 5;
      if !(&& ops[k].Num? && ops[k + 1].Num? && ops[k + 2] == Code(FlexiHash)
           && ops[k + 3] == ops[k + 1] && ops[k + 4] == SmallNum(1))
      then None
      else Some(RevealFields(if k == 1 then Some(ops[0].bytes) else None, ops[k].n, ops[k + 1].n))
  }

  /** Reading an assembled reveal script gives back its values. */
  lemma {:induction false} DisassembleAssembleReveal(f: RevealFields)
    ensures DisassembleReveal(AssembleReveal(f)) == Some(f)
  {
  }

  /** A script that reads as a reveal is exactly the assembly of what was read. */
  lemma {:induction false} AssembleDisassembleReveal(ops: seq<Op>)
    requires DisassembleReveal(ops).Some?
    ensures AssembleReveal(DisassembleReveal(ops).value) == ops
  {
  }

  /** `LotteryEntry.getGuessScript(guess)`: total, and consults no store. */
  function RevealScript(guess: Int32, bits: Int32): (ops: seq<Op>)
    ensures DisassembleReveal(ops) == Some(RevealFields(None, guess, bits))
  {
    DisassembleAssembleReveal(RevealFields(None, guess, bits));
    AssembleReveal(RevealFields(None, guess, bits))
  }

  /** Literal layout of the guess-only reveal script. */
  lemma {:induction false} RevealScriptLayout(guess: Int32, bits: Int32)
    ensures RevealScript(guess, bits) == [Num(guess), Num(bits), Code(FlexiHash), Num(bits), SmallNum(1)]
  {
  }

  /**
   What `LotteryApp.getGuessScript` yields: the script (`None` for `null`),
   the entry it took from the store, and the store left behind.
   */
  datatype Reveal = Reveal(script: Option<seq<Op>>, taken: Option<Entry>, rest: Store)

  /**
   `LotteryApp.getGuessScript(guess, ...)`: takes the earliest stored entry
   with `guess` and reveals against its funding hash; `None`, with the store
   unchanged, when no entry has that guess. The block range arguments of the
   source are unused there and are omitted.
   */
  function RevealScriptFromStore(store: Store, guess: Int32, bits: Int32): (r: Reveal)
    ensures r.script.None? <==> !HasGuess(store, guess)
    ensures r.script.None? ==> r.rest == store && r.taken.None?
    ensures r.script.Some? ==> r.taken.Some? && r.taken.value.guess == guess
    ensures r.script.Some? ==>
              exists i :: && IsEarliest(store, guess, i)
                          && r.taken == Some(store[i])
                          && r.rest == RemoveAt(store, i)
                          && DisassembleReveal(r.script.value) == Some(RevealFields(Some(store[i].hash), guess, bits))
  {
    var t := RemoveFirstEntryGivenGuess(store, guess);
    match t.entry
    case None => Reveal(None, None, store)
    case Some(e) =>
      var f := RevealFields(Some(e.hash), guess, bits);
      DisassembleAssembleReveal(f);
      Reveal(Some(AssembleReveal(f)), Some(e), t.rest)
  }

  /**
   Where an entry exists, `LotteryApp`'s reveal is `LotteryEntry`'s reveal
   with the hash of the earliest entry pushed in front.
   */
  lemma {:induction false} RevealRevisionsAgree(store: Store, guess: Int32, bits: Int32)
    requires HasGuess(store, guess)
    ensures var e := RemoveFirstEntryGivenGuess(store, guess).entry.value;
            RevealScriptFromStore(store, guess, bits).script == Some([Data(e.hash)] + RevealScript(guess, bits))
  {
    var t := RemoveFirstEntryGivenGuess(store, guess);
    assert t.entry.Some?;
    var e := t.entry.value;
    var withHash := AssembleReveal(RevealFields(Some(e.hash), guess, bits));
    assert RevealScriptFromStore(store, guess, bits) == Reveal(Some(withHash), Some(e), t.rest);
    assert withHash == [Data(e.hash)] + AssembleReveal(RevealFields(None, guess, bits));
  }

  /** A second reveal for a guess that had one stored entry finds nothing. */
  lemma {:induction false} SecondRevealFails(store: Store, guess: Int32, bits: Int32)
    requires |Matching(store, guess)| == 1
    ensures RevealScriptFromStore(store, guess, bits).script.Some?
    ensures RevealScriptFromStore(RevealScriptFromStore(store, guess, bits).rest, guess, bits).script.None?
  {
    SecondTakeFindsNothing(store, guess);
  }
}
