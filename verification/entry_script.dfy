/**
 The entry (commitment) script that locks a lottery stake:

   IF   <S+P+D> CHECKLOCKTIMEVERIFY DROP <S+P> <S+P+D-1> BEACON EQUAL [<guess bytes>]
   ELSE <S+P+D+C> CHECKLOCKTIMEVERIFY DROP <rollover output script>
   ENDIF

 `LotteryApp` pushes the guess as four big-endian bytes after `EQUAL`;
 `LotteryEntry` pushes nothing there. The rollover output script is built by
 the script library from a fixed address and is a parameter here.
 */
module EntryScript {
  import opened Wrappers
  import opened JavaInt
  import opened Script
  import opened Round

  /** The values a commitment script carries, in the order they appear. */
  datatype EntryTemplate = EntryTemplate(
    claimLock: int,
    beaconFrom: int,
    beaconTo: int,
    commitment: Option<seq<byte>>,
    rolloverLock: int,
    rollover: seq<Op>)

  /** Fills the fixed `IF ... ELSE ... ENDIF` skeleton with the template's values. */
  function Assemble(t: EntryTemplate): (ops: seq<Op>)
    ensures |ops| == (if t.commitment.Some? then 14 else 13) + |t.rollover|
    ensures ops[0] == Code(If) && ops[|ops| - 1] == Code(EndIf)
  {
    [Code(If), Num(t.claimLock), Code(CheckLockTimeVerify), Code(Drop),
     Num(t.beaconFrom), Num(t.beaconTo), Code(Beacon), Code(Equal)]
    + (if t.commitment.Some? then [Data(t.commitment.value)] else [])
    + [Code(Else), Num(t.rolloverLock), Code(CheckLockTimeVerify), Code(Drop)]
    + t.rollover
    + [Code(EndIf)]
  }

  /**
   Reads a script back into its template, or `None` when it does not have the
   commitment skeleton. A data push right after `EQUAL` is the commitment.
   */
  function Disassemble(ops: seq<Op>): (r: Option<EntryTemplate>)
    ensures r.Some? ==> |ops| >= 13 && ops[0] == Code(If) && ops[|ops| - 1] == Code(EndIf)
  {
    if |ops| < 13 then None
    else if !(&& ops[0] == Code(If) && ops[1].Num? && ops[2] == Code(CheckLockTimeVerify)
              && ops[3] == Code(Drop) && ops[4].Num? && ops[5].Num?
              && ops[6] == Code(Beacon) && ops[7] == Code(Equal))
    then None
    else
      var commitment := if ops[8].Data? then Some(ops[8].bytes) else None;
      var k := if ops[8].Data? then 9 else 8;
      if |ops| < k + 5 then None
      else if !(&& ops[k] == Code(Else) && ops[k + 1].Num? && ops[k + 2] == Code(CheckLockTimeVerify)
                && ops[k + 3] == Code(Drop) && ops[|ops| - 1] == Code(EndIf))
      then None
      else Some(EntryTemplate(ops[1].n, ops[4].n, ops[5].n, commitment, ops[k + 1].n, ops[k + 4..|ops| - 1]))
  }

  /** Reading an assembled script gives back the template it was built from. */
  lemma {:induction false} DisassembleAssemble(t: EntryTemplate)
    ensures Disassemble(Assemble(t)) == Some(t)
  {
    var ops := Assemble(t);
    var k := if t.commitment.Some? then 9 else 8;
    assert ops[k + 4..|ops| - 1] == t.rollover;
  }

  /** A script that reads as a template is exactly the assembly of that template. */
  lemma {:induction false} AssembleDisassemble(ops: seq<Op>)
    requires Disassemble(ops).Some?
    ensures Assemble(Disassemble(ops).value) == ops
  {
    var t := Disassemble(ops).value;
    var k := if ops[8].Data? then 9 else 8;
    var a := Assemble(t);
    assert |a| == |ops|;
    forall i | 0 <= i < |ops| ensures a[i] == ops[i] {
      if i < k + 4 {
      } else if i < |ops| - 1 {
        assert a[i] == t.rollover[i - (k + 4)];
      }
    }
  }

  /** The template for the round `p`, committing to `commitment`. */
  function RoundTemplate(p: RoundParams, commitment: Option<seq<byte>>, rollover: seq<Op>): EntryTemplate {
    EntryTemplate(ClaimLockHeight(p), RevealOpensAt(p), LastBeaconHeight(p), commitment,
                  RolloverLockHeight(p), rollover)
  }

  /**
   `LotteryApp.getEntryScript(guess)`: `None` when there is no wallet to read
   the round from (`params` is `None`), otherwise the commitment script of the
   current round carrying the guess as four big-endian bytes.
   */
  function EntryScriptForGuess(params: Option<RoundParams>, guess: Int32, rollover: seq<Op>): (r: Option<seq<Op>>)
    ensures r.None? <==> params.None?
    ensures r.Some? ==>
              Disassemble(r.value) == Some(RoundTemplate(params.value, Some(Int32ToBytes(guess)), rollover))
  {
    match params
    case None => None
    case Some(p) =>
      var t := RoundTemplate(p, Some(Int32ToBytes(guess)), rollover);
      DisassembleAssemble(t);
      Some(Assemble(t))
  }

  /** `LotteryEntry.getEntryScript()`: the same skeleton with nothing pushed after `EQUAL`. */
  function EntryScriptNoGuess(p: RoundParams, rollover: seq<Op>): (ops: seq<Op>)
    ensures Disassemble(ops) == Some(RoundTemplate(p, None, rollover))
    ensures ops[7] == Code(Equal) && ops[8] == Code(Else)
  {
    var t := RoundTemplate(p, None, rollover);
    DisassembleAssemble(t);
    Assemble(t)
  }

  /** The guess committed by `LotteryApp`'s entry script decodes back to the guess. */
  lemma {:induction false} CommittedGuessRecoverable(p: RoundParams, guess: Int32, rollover: seq<Op>)
    ensures var t := Disassemble(EntryScriptForGuess(Some(p), guess, rollover).value).value;
            t.commitment.Some? && |t.commitment.value| == 4 && BytesToInt32(t.commitment.value) == guess
  {
    DecodeEncode(guess);
  }

  /**
   Literal layout of `LotteryApp`'s entry script when none of the heights it
   pushes overflows; the periods may be of any sign.
   */
  lemma {:induction false} EntryScriptLayout(p: RoundParams, guess: Int32, rollover: seq<Op>)
    requires HeightsInRange(p)
    ensures var s, pr, d, c := p.start, p.period, p.delay, p.claimingPeriod;
            EntryScriptForGuess(Some(p), guess, rollover).value
            == [Code(If), Num(s + pr + d), Code(CheckLockTimeVerify), Code(Drop),
                Num(s + pr), Num(s + pr + d - 1), Code(Beacon), Code(Equal), Data(Int32ToBytes(guess)),
                Code(Else), Num(s + pr + d + c), Code(CheckLockTimeVerify), Code(Drop)]
               + rollover + [Code(EndIf)]
  {
  }

  /**
   Heights read from either revision's entry script are ordered: the beacon
   range is non-empty and ends before the claim lock, which is before the
   rollover lock.
   */
  lemma {:induction false} ScriptThresholdsOrdered(p: RoundParams, commitment: Option<seq<byte>>, rollover: seq<Op>)
    requires Positive(p) && NoOverflow(p)
    ensures var t := Disassemble(Assemble(RoundTemplate(p, commitment, rollover))).value;
            && t.beaconFrom == p.start + p.period
            && t.beaconFrom <= t.beaconTo < t.claimLock < t.rolloverLock
            && t.claimLock == t.beaconTo + 1
            && t.rolloverLock - t.claimLock == p.claimingPeriod
  {
    WindowOrdered(p);
    DisassembleAssemble(RoundTemplate(p, commitment, rollover));
  }

  /**
   The two revisions differ only in `LotteryApp`'s guess push, which sits
   between `EQUAL` and `ELSE`.
   */
  lemma {:induction false} RevisionsDifferOnlyInCommitment(p: RoundParams, guess: Int32, rollover: seq<Op>)
    ensures var plain := EntryScriptNoGuess(p, rollover);
            EntryScriptForGuess(Some(p), guess, rollover).value
            == plain[..8] + [Data(Int32ToBytes(guess))] + plain[8..]
  {
    var plain := EntryScriptNoGuess(p, rollover);
    var withGuess := EntryScriptForGuess(Some(p), guess, rollover).value;
    AssembleDisassemble(plain);
    AssembleDisassemble(withGuess);
  }
}
