# lotteryapp: commit-reveal lottery client, modelled in Dafny

The repository is a Bitcoin-style lottery client written against a modified
bitcoinj. A player enters by locking `Coin.COIN` (100 000 000 satoshi) behind an
entry (commitment) script:

    IF   <S+P+D> CHECKLOCKTIMEVERIFY DROP <S+P> <S+P+D-1> BEACON EQUAL [<guess>]
    ELSE <S+P+D+C> CHECKLOCKTIMEVERIFY DROP <rollover output script>
    ENDIF

Here `S`, `P`, `D` and `C` are the wallet's current round start, period, delay
and claiming period. A winner claims the previous round's entries by spending
them with a reveal (guess) script:

    [<entry tx hash>] <guess> <bits> FLEXIHASH <bits> 1

There are two revisions of the client, and both are modelled:

- `LotteryApp` commits to the guess as four big-endian bytes. It keeps an
  in-memory store of the entries it sent (`Entry`: transaction hash, guess,
  date). When claiming, it takes the earliest stored entry with the guess out
  of the store and reveals against that entry's hash.
- `LotteryEntry` commits to nothing after `EQUAL` and reveals the guess alone.
  Its `claimWinnings` returns a success flag. Two wallet listeners enter
  automatically once funds arrive and claim automatically once the claiming
  period opens.

Module layout:

| module | file | what it holds |
|---|---|---|
| `Wrappers` | wrappers.dfy | `Option` (`None` stands for Java's `null`) |
| `JavaInt` | java_int.dfy | Java `int` wrap-around; `ByteBuffer.putInt` big-endian encoding and its inverse |
| `Script` | script.dfy | the opcodes and pushes the scripts are made of |
| `Entries` | entries.dfy | `Entry` and its `equals` |
| `EntryStore` | entry_store.dfy | the entry store and `removeFirstEntryGivenGuess` |
| `Round` | round.dfy | the round's block heights in 32-bit arithmetic |
| `EntryScript` | entry_script.dfy | the entry script of both revisions, with a reader that inverts it |
| `GuessScript` | guess_script.dfy | the reveal script of both revisions, with its reader |
| `Ledger` | ledger.dfy | candidates, claim and entry transactions, the stake |
| `LotteryApp` | lottery_app.dfy | `enterLottery` and `claimWinnings` of the store-keeping revision |
| `LotteryEntry` | lottery_entry.dfy | `lotteryEntry`, `claimWinnings` and the two listeners of the other revision |

The wallet and the network are parameters. These include the balance, the
claim candidates (`None` outside the claiming period), the last height seen,
the change address, the fee (`REFERENCE_DEFAULT_MIN_TX_FEE`) and the output's
dust floor (`getMinNonDustValue`). Whether `sendCoins` succeeds is a flag for
an entry, or a predicate `accepts` on the claim transaction. Whether the
broadcast listener ran, the transaction hash and the clock are also parameters.
The script library is represented abstractly:

- opcodes are an enumeration;
- number pushes carry the integer;
- data pushes carry the bytes;
- the rollover output script is an opaque sequence of operations;
- whether an output `isLotteryEntry` is a field of the candidate.

Points where the code differs from the protocol as usually described:

- The code locks the claim branch at `S+P+D` (`CHECKLOCKTIMEVERIFY` on the
  first pushed height), not at `S+P`. The beacon range is `S+P .. S+P+D-1`.
  The model follows the code.
- Heights are Java `int` sums with no validity check. Non-positive periods are
  accepted, and sums wrap at 2^31. The model wraps explicitly. The ordering
  lemmas assume positive periods and no overflow, and `Round.OverflowBreaksOrder`
  shows the order failing without the second assumption.
- In `LotteryApp.claimWinnings`, the entry is removed from the store before
  `sendCoins` is tried. A claim that cannot be sent therefore still consumes
  its entry (`ClaimStatus.SendFailed` with one consumed entry).
- `LotteryEntry`'s auto-claim trigger is `height >= start + delay` of the
  current round. Once the wallet has moved on to the next round, this is the
  claim lock height of the previous round
  (`LotteryEntry.TriggerIsPreviousClaimLock`).

## Model

| member | source | states |
|---|---|---|
| JavaInt.Wrap32 | LotteryApp.java:362-371 | Java `int` addition: the result is congruent to the true sum modulo 2^32 and equals it when the sum fits in 32 bits |
| JavaInt.Int32ToBytes | LotteryApp.java:352 | `putInt` yields four bytes whose big-endian value is the unsigned reading of the `int`, with the top bit set exactly for negative values |
| JavaInt.BytesToInt32 | LotteryApp.java:352 | reading four bytes back as an `int` gives a negative value exactly when the top bit is set |
| JavaInt.DecodeEncode | LotteryApp.java:352 | reading the bytes `putInt` wrote gives back the `int` |
| JavaInt.EncodeDecode | LotteryApp.java:352 | every 4-byte array is the encoding of the `int` it reads as |
| JavaInt.EncodingInjective | LotteryApp.java:352 | different guesses are committed to as different byte strings |
| Round.RevealOpensAt | LotteryApp.java:364 | the first beacon height `S+P`, wrapped to 32 bits, equals `S+P` when that fits |
| Round.LastBeaconHeight | LotteryApp.java:364 | the last beacon height `S+P+D-1`, wrapped, equals `S+P+D-1` when that fits |
| Round.ClaimLockHeight | LotteryApp.java:362 | the claim branch's lock height `S+P+D`, wrapped, equals `S+P+D` when that fits |
| Round.RolloverLockHeight | LotteryApp.java:371 | the rollover lock height `S+P+D+C`, wrapped, equals `S+P+D+C` without overflow |
| Round.WindowOrdered | LotteryApp.java:362-371 | for positive periods without overflow: `S < S+P <= S+P+D-1 < S+P+D < S+P+D+C`; claim lock minus reveal start is `D`; rollover minus claim lock is `C` |
| Round.OverflowBreaksOrder | LotteryApp.java:371 | with `S = 2^31-3` and periods 1, the rollover lock wraps negative and falls before the claim lock |
| Round.ExampleRound | LotteryApp.java:362-371 | `S=100, P=50, D=6, C=20` gives beacon range 150..155, claim lock 156, rollover lock 176 |
| Entries.Equals | Entry.java:27-33 | `equals` is false for `null` and non-entries, and true exactly for an entry with the same hash, guess and date |
| Entries.GettersReturnConstructorArguments | Entry.java:17-25 | the getters return the constructor's arguments |
| Entries.EqualsIsFieldEquality | Entry.java:27-33 | `equals` between entries holds exactly when every field agrees |
| Entries.EqualsReflexive | Entry.java:27-33 | `equals` is reflexive |
| Entries.EqualsSymmetric | Entry.java:27-33 | `equals` is symmetric |
| Entries.EqualsTransitive | Entry.java:27-33 | `equals` is transitive |
| EntryStore.ScanFrom | LotteryApp.java:423-436 | the scan loop returns `null` exactly when no entry has the guess, and otherwise the first position whose date is minimal among the matches (a later match replaces the candidate only when strictly earlier) |
| EntryStore.EarliestMatch | LotteryApp.java:423-436 | the whole scan finds the earliest match, or none when the guess is absent |
| EntryStore.RemoveAt | LotteryApp.java:438 | removing one entry leaves the store one shorter with exactly that entry's occurrence gone |
| EntryStore.RemoveFirstEntryGivenGuess | LotteryApp.java:422-440 | returns `null` with the store untouched exactly when no entry has the guess; otherwise returns an entry with the guess dated no later than any other match, and removes exactly it |
| EntryStore.Record | LotteryApp.java:243-244 | adding a fresh entry adds it to the store and appends it to its guess's matches, leaving other guesses' matches alone |
| EntryStore.MatchingAppend | LotteryApp.java:425-426 | the entries with a guess in a concatenation are the matches of each part in order |
| EntryStore.MatchingRemoveAt | LotteryApp.java:438 | removing a position removes exactly that entry from its guess's matches |
| EntryStore.EarliestUnique | LotteryApp.java:423-436 | only one position satisfies the earliest-match condition, so the result of the scan is determined |
| EntryStore.TakeReturnsEarliest | LotteryApp.java:422-440 | the take returns and removes the entry at the earliest position |
| EntryStore.EarliestIsFirstOccurrence | LotteryApp.java:438 | no earlier position holds the same entry, so `remove(earliest)` removes the scanned position |
| EntryStore.OtherGuessesUntouched | LotteryApp.java:422-440 | a take leaves the entries of every other guess exactly as they were |
| EntryStore.SameGuessOthersUntouched | LotteryApp.java:422-440 | among the entries with the taken guess, only the returned one is gone and the rest keep their order |
| EntryStore.TakeShrinksMatches | LotteryApp.java:422-440 | each take lowers the number of entries with that guess by one |
| EntryStore.SecondTakeFindsNothing | LotteryApp.java:422-440 | with a single entry for a guess, the first take returns it and a second returns `null` |
| EntryStore.SuccessiveTakesInDateOrder | LotteryApp.java:422-440 | two successive takes for one guess return entries in date order |
| EntryStore.TakeIndependentOfOrder | LotteryApp.java:425 | when matching entries have distinct dates, the entry taken does not depend on the set's iteration order |
| EntryStore.TieBreakByDate | LotteryApp.java:432 | of two entries with one guess, the earlier-dated one is taken in either insertion order |
| EntryStore.RecordThenTake | LotteryApp.java:243-244 | an entry added for a guess the store lacked is what the next take returns, leaving the store as before |
| EntryScript.Assemble | LotteryApp.java:353-378 | the entry script skeleton: starts with `IF`, ends with `ENDIF`, 13 operations plus the rollover script, one more with a guess push |
| EntryScript.Disassemble | LotteryApp.java:353-378 | a script read as an entry script has the `IF ... ENDIF` skeleton |
| EntryScript.DisassembleAssemble | LotteryApp.java:353-378 | reading an assembled entry script gives back its heights, commitment and rollover script |
| EntryScript.AssembleDisassemble | LotteryApp.java:353-378 | a script that reads as an entry script is exactly the assembly of what was read |
| EntryScript.EntryScriptForGuess | LotteryApp.java:346-379 | `null` exactly when there is no wallet; otherwise a script that reads as the current round's heights with the guess's four bytes committed |
| EntryScript.EntryScriptNoGuess | LotteryEntry.java:345-371 | a script that reads as the current round's heights with no commitment, `ELSE` right after `EQUAL` |
| EntryScript.CommittedGuessRecoverable | LotteryApp.java:352-366 | the committed four bytes read back as the guess |
| EntryScript.EntryScriptLayout | LotteryApp.java:354-378 | for any periods whose four pushed heights fit in an `int`, the script is literally `IF S+P+D CLTV DROP S+P S+P+D-1 BEACON EQUAL <guess> ELSE S+P+D+C CLTV DROP <rollover> ENDIF` |
| EntryScript.ScriptThresholdsOrdered | LotteryApp.java:362-371 | the heights read from either revision's script are ordered: beacon range non-empty, ending right before the claim lock, which is `C` before the rollover lock |
| EntryScript.RevisionsDifferOnlyInCommitment | LotteryApp.java:365-366 | the two revisions' entry scripts differ only by the guess push between `EQUAL` and `ELSE` |
| GuessScript.AssembleReveal | LotteryApp.java:416-418 | the reveal script has five operations, six with a hash push, and ends with `1` |
| GuessScript.DisassembleReveal | LotteryApp.java:416-418 | a script read as a reveal has five or six operations and the same proof strength on both sides of `FLEXIHASH` |
| GuessScript.DisassembleAssembleReveal | LotteryApp.java:416-418 | reading an assembled reveal gives back its hash, guess and proof strength |
| GuessScript.AssembleDisassembleReveal | LotteryApp.java:416-418 | a script that reads as a reveal is exactly the assembly of what was read |
| GuessScript.RevealScript | LotteryEntry.java:385-393 | the guess-only reveal reads back as that guess and proof strength with no hash |
| GuessScript.RevealScriptFromStore | LotteryApp.java:402-420 | `null` with the store unchanged exactly when no entry has the guess; otherwise the earliest entry with the guess is taken out and the script reads back as that entry's hash, the guess and the proof strength |
| GuessScript.RevealScriptLayout | LotteryEntry.java:385-393 | the guess-only reveal is literally `guess bits FLEXIHASH bits 1`, with no hash in front |
| GuessScript.RevealRevisionsAgree | LotteryApp.java:414-418 | the store-keeping reveal is the guess-only reveal with the taken entry's hash pushed in front |
| GuessScript.SecondRevealFails | LotteryApp.java:405-410 | with a single entry for a guess, a second reveal for it is `null` |
| Ledger.BuildClaimTx | LotteryApp.java:293-305 | the claim spends the candidate's outpoint with sequence 100, pays its value less the fee to the change address, and locks at the current height |
| Ledger.LotteryCandidates | LotteryApp.java:279-280 | the candidates the loop acts on are exactly the lottery entries in the list: each one kept is a lottery entry from the list, every lottery entry in the list is kept, and there are none exactly when no candidate is a lottery entry |
| Ledger.LotteryCandidatesCount | LotteryApp.java:279-280 | each lottery candidate is kept as many times as the list holds it, and every other candidate is dropped |
| LotteryApp.EnterLottery | LotteryApp.java:210-251 | aborts without a wallet or when a funded send fails; refuses below stake plus dust plus fee, reporting both amounts; otherwise sends the stake to the round's script committing the guess; the store gains exactly the new entry if and only if the broadcast listener ran |
| LotteryApp.ClaimEach | LotteryApp.java:279-322 | the loop ends in one of three ways: a missing entry, a failed send, or the end of the list; one entry is consumed per claim sent, plus one for a failed send; all consumed entries have the guess; when it stops for a missing entry, none is left |
| LotteryApp.ClaimEachMatches | LotteryApp.java:279-322 | the i-th claim sent spends the i-th lottery candidate, pays the change address, and reveals the i-th consumed entry; when the loop finishes, every lottery candidate got a claim |
| LotteryApp.ClaimEachProgress | LotteryApp.java:279-314 | every claim sent was accepted by the wallet; the loop stops before the last lottery candidate only when it cannot claim one; a failed send is the refused claim for the next lottery candidate, revealing the entry taken last |
| LotteryApp.ClaimEachConserves | LotteryApp.java:285-291 | the store left plus the consumed entries is exactly the original store |
| LotteryApp.ClaimEachInDateOrder | LotteryApp.java:285-291 | entries are consumed earliest first, and none left with the guess is earlier than one consumed |
| LotteryApp.ClaimWinnings | LotteryApp.java:254-323 | refuses below the fee, outside the claiming period and with no candidates, touching nothing; otherwise the store is conserved, entries are consumed earliest first and the claims match the lottery candidates in order; one entry is consumed per claim sent, plus one for a failed send; every claim sent was accepted; a missing entry or a failed send stops the loop before the last lottery candidate, and a failed send is the next claim being refused |
| LotteryApp.ClaimWithoutEntry | LotteryApp.java:285-291 | with no stored entry for the guess and a lottery candidate present, the claim stops at the first one, sending nothing and leaving the store alone |
| LotteryApp.ClaimSingleCandidate | LotteryApp.java:279-322 | with one lottery candidate, a stored entry and a willing wallet, exactly that claim is sent and the loop finishes |
| LotteryApp.EnterThenClaimReveals | LotteryApp.java:238-246 | the entry recorded by a successful `enterLottery` is the one the next claim for that guess reveals, and the store returns to its earlier state |
| LotteryApp.CommitmentMatchesReveal | LotteryApp.java:352-366 | the four bytes committed in the entry script read as the guess the reveal pushes, at the current proof strength |
| LotteryEntry.Enter | LotteryEntry.java:221-259 | refuses below stake plus dust plus fee, reporting both amounts; aborts when a funded send fails; otherwise sends the stake to the round's script with no commitment |
| LotteryEntry.ClaimLoop | LotteryEntry.java:281-320 | claims sent are a prefix of the claims for the lottery candidates, all accepted; `true` exactly when that prefix is all of them; on `false` the next claim is the refused one |
| LotteryEntry.AcceptedPrefixOk | LotteryEntry.java:306-321 | a loop that stops at the first refused claim reports success exactly when every claim is accepted |
| LotteryEntry.ClaimWinnings | LotteryEntry.java:262-322 | `true` exactly when balance, candidate list and non-emptiness checks pass and the wallet sends every lottery candidate's claim; nothing is sent when a check fails; otherwise the claims sent are the accepted prefix of the lottery candidates' claims, and on `false` the next claim is the one the wallet refused |
| LotteryEntry.NoLotteryCandidatesStillTrue | LotteryEntry.java:281-321 | when no candidate is a lottery entry, `claimWinnings` returns `true` having sent nothing |
| LotteryEntry.ClaimsSpendLotteryCandidates | LotteryEntry.java:287-302 | every claim sent spends a lottery candidate, in order, with the guess-only reveal and the change address as payee |
| LotteryEntry.RefusedClaimKeepsEarlierClaims | LotteryEntry.java:306-311 | a refused second claim makes `claimWinnings` return `false`, with the first claim already sent |
| LotteryEntry.OnCoinsReceived | LotteryEntry.java:99-102 | once latched, incoming funds do nothing; otherwise one more confirmation callback is registered |
| LotteryEntry.OnDepthReached | LotteryEntry.java:104-108 | a registered callback enters and sets the latch unless the entry threw; with `recheckLatch` it does nothing once latched |
| LotteryEntry.AutoEnterRun | LotteryEntry.java:97-117 | over any events, entries sent never exceed entries attempted, which never exceed the events; the latch is only set by an attempt |
| LotteryEntry.TwoPaymentsTwoEntries | LotteryEntry.java:100-107 | as written, two payments received before the first confirmation make two entry transactions |
| LotteryEntry.RecheckedSendsAtMostOnce | LotteryEntry.java:100-107 | with the latch re-read in the callback, at most one entry transaction is sent, and none once latched |
| LotteryEntry.LowBalanceLatches | LotteryEntry.java:106-107 | a low-balance refusal returns normally and so sets the latch; an aborted entry does not |
| LotteryEntry.LatchedIsIdle | LotteryEntry.java:100 | latched with nothing pending, the listener never enters again |
| LotteryEntry.OnWalletChanged | LotteryEntry.java:123-134 | claims exactly when unlatched and inside the trigger window, with a guess in 1..100; the latch is set exactly when that claim reports success |
| LotteryEntry.InClaimWindowPlain | LotteryEntry.java:128 | without overflow the trigger reads `height >= start + delay` and `start > period` |
| LotteryEntry.TriggerIsPreviousClaimLock | LotteryEntry.java:128 | after the wallet moves to the next round, the trigger height is the previous round's claim lock height |

## Left out

- The command shell, `main`, network selection, printing and the address file
  are user interface and process setup.
- Wallet queries are parameters. These are the balance, claim candidates,
  last height seen, change address, round parameters, fee constant and dust
  floor. Their computation in the wallet library (`calculateAllClaimCandidates`,
  `getMinNonDustValue`, coin selection, signing) is not part of this model.
- `sendCoins` is a flag for an entry and a predicate on the claim transaction
  for a claim. Broadcasting, confirmation depth and the listener threads are
  events or flags. Concurrent access to the static fields is not modelled.
- Script byte encoding (`ScriptBuilder.number`, `data`, `smallNum`) and the
  interpretation of `BEACON`, `FLEXIHASH` and `CHECKLOCKTIMEVERIFY` belong to
  the script library. Scripts are sequences of abstract operations.
- The rollover output script is built from a fixed address by the library. It
  is a parameter.
- `isLotteryEntry` on a candidate's script is decided by the library. It is a
  field of the candidate.
- `Math.random()`: the auto-claim guess is a parameter restricted to 1..100.
- `getAllGuessScripts` is dead code: its loop body is commented out.
- The `startBlock`/`endBlock` arguments of `LotteryApp.getGuessScript` are
  computed but never read, so they are omitted.
- `updaterandomness` changes `bitsOfRandomness`. The proof strength is a
  parameter of every reveal.
- EntryStore.RemoveFirstEntryGivenGuess: `HashSet` iteration order is
  unspecified. The store is a sequence in iteration order, so between matches
  with equal dates the model picks the first in that order, while the source
  picks whichever the hash set yields first.
  `EntryStore.TakeIndependentOfOrder` covers the case of distinct dates.
- Entries.Equals: Java compares the hash and date objects by reference and
  does not override `hashCode`. The model compares values, and treats every
  added entry as a new element (an append).
- The change address is read once per claim attempt: the wallet's `change`
  field pays every claim of the loop. The source calls `getChangeAddress()`
  again for each claim (LotteryApp.java:302, LotteryEntry.java:299), and the
  wallet may hand out a fresh change key after a transaction pays the current
  one. The claim properties that name the payee (`LotteryApp.ClaimEachMatches`,
  `LotteryEntry.ClaimsSpendLotteryCandidates`) hold under that simplification.
- Ledger.BuildClaimTx: the output value is the candidate's value minus the fee
  even when that is negative. bitcoinj throws on a negative output value,
  which the model does not represent.
- `Coin` overflow checks (`Coin.add` throwing on `long` overflow) are not
  modelled, and amounts are unbounded integers.

## Findings

| source | as written | input that shows it | evidently intended | confidence | as-written member | corrected member |
|---|---|---|---|---|---|---|
| LotteryEntry.java:100-107 | `onCoinsReceived` checks `alreadyEntered` when funds arrive. The depth callback then calls `lotteryEntry()` without checking again. | Two payments arrive before the first is one block deep. Both callbacks run and two stakes are sent. | The auto-enter listener enters the lottery once. | medium, not executed | LotteryEntry.TwoPaymentsTwoEntries | LotteryEntry.RecheckedSendsAtMostOnce |

The corrected behaviour is `LotteryEntry.OnDepthReached` with `recheckLatch`
set. The callback re-reads the latch before entering.
`LotteryEntry.RecheckedSendsAtMostOnce` proves that at most one entry
transaction is then sent. The as-written behaviour, `recheckLatch` false, is
kept so that `TwoPaymentsTwoEntries` can exhibit the double entry.
