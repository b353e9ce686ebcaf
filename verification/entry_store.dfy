/**
 The in-memory record of entries this process has submitted, and the
 "take the earliest entry with this guess" operation used when revealing.

 The source keeps a `HashSet<Entry>`; here the store is a sequence in
 iteration order, duplicates allowed. `Entry` does not override `hashCode`, so
 adding a freshly constructed entry always inserts it: adding is appending.
 */
module EntryStore {
  import opened Wrappers
  import opened JavaInt
  import opened Entries

  type Store = seq<Entry>

  /** Some stored entry carries `guess`. */
  predicate HasGuess(store: Store, guess: Int32) {
    exists i :: 0 <= i < |store| && store[i].guess == guess
  }

  /** The stored entries with `guess`, in store order. */
  function Matching(store: Store, guess: Int32): (m: seq<Entry>)
    ensures |m| <= |store|
    ensures forall e :: e in m ==> e in store && e.guess == guess
    ensures |m| == 0 <==> !HasGuess(store, guess)
  {
    if |store| == 0 then []
    else
      var rest := Matching(store[1..], guess);
      assert HasGuess(store[1..], guess) ==> HasGuess(store, guess) by {
        if HasGuess(store[1..], guess) {
          var i :| 0 <= i < |store[1..]| && store[1..][i].guess == guess;
          assert store[i + 1].guess == guess;
        }
      }
      if store[0].guess == guess then [store[0]] + rest else rest
  }

  /**
   Position `i` holds the entry the source's scan keeps after visiting the
   first `k` entries: it has the guess, no match among the first `k` is
   strictly earlier, and every match before it is strictly later (the scan
   replaces its candidate only on `compareTo(...) < 0`).
   */
  ghost predicate IsEarliestIn(store: Store, guess: Int32, i: int, k: int) {
    && 0 <= i < k <= |store|
    && store[i].guess == guess
    && (forall j :: 0 <= j < k && store[j].guess == guess ==> store[i].date <= store[j].date)
    && (forall j :: 0 <= j < i && store[j].guess == guess ==> store[i].date < store[j].date)
  }

  /** Position `i` is the first earliest entry with `guess` in the whole store. */
  ghost predicate IsEarliest(store: Store, guess: Int32, i: int) {
    IsEarliestIn(store, guess, i, |store|)
  }

  /**
   The loop of `removeFirstEntryGivenGuess`: visits positions `k..` in order,
   `earliest` being the candidate kept so far.
   */
  function ScanFrom(store: Store, guess: Int32, k: nat, earliest: Option<nat>): (r: Option<nat>)
    requires k <= |store|
    requires earliest.None? <==> forall j :: 0 <= j < k ==> store[j].guess != guess
    requires earliest.Some? ==> IsEarliestIn(store, guess, earliest.value, k)
    ensures r.None? <==> !HasGuess(store, guess)
    ensures r.Some? ==> IsEarliest(store, guess, r.value)
    decreases |store| - k
  {
    if k == |store| then earliest
    else if store[k].guess != guess then ScanFrom(store, guess, k + 1, earliest)
    else if earliest.None? then ScanFrom(store, guess, k + 1, Some(k))
    else if store[k].date < store[earliest.value].date then ScanFrom(store, guess, k + 1, Some(k))
    else ScanFrom(store, guess, k + 1, earliest)
  }

  /** The position of the first earliest entry with `guess`, if any. */
  function EarliestMatch(store: Store, guess: Int32): (r: Option<nat>)
    ensures r.None? <==> !HasGuess(store, guess)
    ensures r.Some? ==> IsEarliest(store, guess, r.value)
  {
    ScanFrom(store, guess, 0, None)
  }

  /** The store with position `i` taken out, everything else in order. */
  function RemoveAt(store: Store, i: nat): (r: Store)
    requires i < |store|
    ensures |r| == |store| - 1
    ensures multiset(r) + multiset{store[i]} == multiset(store)
  {
    assert store == store[..i] + [store[i]] + store[i + 1..];
    store[..i] + store[i + 1..]
  }

  /** What a take returns: the entry (`None` for Java's `null`) and the store left behind. */
  datatype Taken = Taken(entry: Option<Entry>, rest: Store)

  /** The entries a take removed, as a multiset. */
  function TakenEntries(t: Taken): multiset<Entry> {
    if t.entry.Some? then multiset{t.entry.value} else multiset{}
  }

  /**
   `removeFirstEntryGivenGuess`: find the earliest stored entry with `guess`
   and remove it from the store.
   */
  function RemoveFirstEntryGivenGuess(store: Store, guess: Int32): (t: Taken)
    ensures t.entry.None? <==> !HasGuess(store, guess)
    ensures t.entry.None? ==> t.rest == store
    ensures t.entry.Some? ==> t.entry.value.guess == guess
    ensures t.entry.Some? ==>
              forall e :: e in store && e.guess == guess ==> t.entry.value.date <= e.date
    ensures t.entry.Some? ==>
              exists i :: IsEarliest(store, guess, i) && store[i] == t.entry.value
                          && t.rest == RemoveAt(store, i)
    ensures multiset(t.rest) + TakenEntries(t) == multiset(store)
  {
    match EarliestMatch(store, guess)
    case None => Taken(None, store)
    case Some(i) =>
      assert forall e :: e in store && e.guess == guess ==> store[i].date <= e.date by {
        forall e | e in store && e.guess == guess
          ensures store[i].date <= e.date
        {
          var j :| 0 <= j < |store| && store[j] == e;
        }
      }
      Taken(Some(store[i]), RemoveAt(store, i))
  }

  /** `entries.add(entry)` for a freshly constructed entry. */
  function Record(store: Store, e: Entry): (r: Store)
    ensures multiset(r) == multiset(store) + multiset{e}
    ensures forall g :: Matching(r, g) == Matching(store, g) + (if e.guess == g then [e] else [])
  {
    forall g ensures Matching(store + [e], g) == Matching(store, g) + Matching([e], g) {
      MatchingAppend(store, [e], g);
    }
    store + [e]
  }

  /** Filtering distributes over concatenation. */
  lemma {:induction false} MatchingAppend(a: Store, b: Store, g: Int32)
    ensures Matching(a + b, g) == Matching(a, g) + Matching(b, g)
    decreases |a|
  {
    if |a| == 0 {
      assert a + b == b;
    } else {
      assert (a + b)[1..] == a[1..] + b;
      MatchingAppend(a[1..], b, g);
    }
  }

  /** Taking position `i` out of the store takes exactly `store[i]` out of its guess's matches. */
  lemma {:induction false} MatchingRemoveAt(store: Store, i: nat, g: Int32)
    requires i < |store|
    ensures Matching(store, g)
            == Matching(store[..i], g)
               + (if store[i].guess == g then [store[i]] else [])
               + Matching(store[i + 1..], g)
    ensures Matching(RemoveAt(store, i), g) == Matching(store[..i], g) + Matching(store[i + 1..], g)
  {
    assert store == store[..i] + ([store[i]] + store[i + 1..]);
    MatchingAppend(store[..i], [store[i]] + store[i + 1..], g);
    MatchingAppend([store[i]], store[i + 1..], g);
    MatchingAppend(store[..i], store[i + 1..], g);
  }

  /** Only one earliest position exists, so the spec fixes the scan's answer. */
  lemma {:induction false} EarliestUnique(store: Store, guess: Int32, i: int, j: int)
    requires IsEarliest(store, guess, i) && IsEarliest(store, guess, j)
    ensures i == j
  {
  }

  /** A take returns the entry at the earliest position and removes that position. */
  lemma {:induction false} TakeReturnsEarliest(store: Store, guess: Int32, i: int)
    requires IsEarliest(store, guess, i)
    ensures RemoveFirstEntryGivenGuess(store, guess) == Taken(Some(store[i]), RemoveAt(store, i))
  {
    var t := RemoveFirstEntryGivenGuess(store, guess);
    var k :| IsEarliest(store, guess, k) && store[k] == t.entry.value && t.rest == RemoveAt(store, k);
    EarliestUnique(store, guess, i, k);
  }

  /**
   The earliest position holds the first occurrence of its value, so
   removing that value from a collection (`entries.remove(earliest)`) removes
   this very position.
   */
  lemma {:induction false} EarliestIsFirstOccurrence(store: Store, guess: Int32, i: int)
    requires IsEarliest(store, guess, i)
    ensures forall j :: 0 <= j < i ==> store[j] != store[i]
  {
    forall j | 0 <= j < i
      ensures store[j] != store[i]
    {
    }
  }

  /** A take leaves the entries with every other guess exactly as they were. */
  lemma {:induction false} OtherGuessesUntouched(store: Store, guess: Int32, other: Int32)
    requires other != guess
    ensures Matching(RemoveFirstEntryGivenGuess(store, guess).rest, other) == Matching(store, other)
  {
    var m := EarliestMatch(store, guess);
    if m.Some? {
      var i := m.value;
      TakeReturnsEarliest(store, guess, i);
      MatchingRemoveAt(store, i, other);
      assert store[i].guess != other;
    }
  }

  /**
   Of the entries with the taken guess, exactly the returned one is gone and
   the others keep their order.
   */
  lemma {:induction false} SameGuessOthersUntouched(store: Store, guess: Int32)
    requires HasGuess(store, guess)
    ensures exists pre, post ::
              Matching(store, guess) == pre + [RemoveFirstEntryGivenGuess(store, guess).entry.value] + post
              && Matching(RemoveFirstEntryGivenGuess(store, guess).rest, guess) == pre + post
  {
    var t := RemoveFirstEntryGivenGuess(store, guess);
    var i :| IsEarliest(store, guess, i) && store[i] == t.entry.value && t.rest == RemoveAt(store, i);
    MatchingRemoveAt(store, i, guess);
    var pre, post := Matching(store[..i], guess), Matching(store[i + 1..], guess);
    assert Matching(store, guess) == pre + [t.entry.value] + post;
  }

  /** A take removes one match: the count of entries with that guess drops by one. */
  lemma {:induction false} TakeShrinksMatches(store: Store, guess: Int32)
    requires HasGuess(store, guess)
    ensures |Matching(RemoveFirstEntryGivenGuess(store, guess).rest, guess)| == |Matching(store, guess)| - 1
  {
    SameGuessOthersUntouched(store, guess);
  }

  /**
   With one stored entry for `guess`, the first take returns it and a second
   take returns `null`.
   */
  lemma {:induction false} SecondTakeFindsNothing(store: Store, guess: Int32)
    requires |Matching(store, guess)| == 1
    ensures RemoveFirstEntryGivenGuess(store, guess).entry == Some(Matching(store, guess)[0])
    ensures RemoveFirstEntryGivenGuess(RemoveFirstEntryGivenGuess(store, guess).rest, guess).entry.None?
  {
    var t := RemoveFirstEntryGivenGuess(store, guess);
    SameGuessOthersUntouched(store, guess);
    var pre, post :| Matching(store, guess) == pre + [t.entry.value] + post
                     && Matching(t.rest, guess) == pre + post;
    assert |pre| == 0 && |post| == 0;
  }

  /** Two successive takes for one guess return entries in date order. */
  lemma {:induction false} SuccessiveTakesInDateOrder(store: Store, guess: Int32)
    requires |Matching(store, guess)| >= 2
    ensures RemoveFirstEntryGivenGuess(store, guess).entry.Some?
    ensures RemoveFirstEntryGivenGuess(RemoveFirstEntryGivenGuess(store, guess).rest, guess).entry.Some?
    ensures RemoveFirstEntryGivenGuess(store, guess).entry.value.date
            <= RemoveFirstEntryGivenGuess(RemoveFirstEntryGivenGuess(store, guess).rest, guess).entry.value.date
  {
    var t1 := RemoveFirstEntryGivenGuess(store, guess);
    TakeShrinksMatches(store, guess);
    var t2 := RemoveFirstEntryGivenGuess(t1.rest, guess);
    var e2 := t2.entry.value;
    assert e2 in multiset(t1.rest);
    assert e2 in store;
  }

  /** Distinct matching entries have distinct dates. */
  ghost predicate DistinctDates(store: Store, guess: Int32) {
    forall i, j ::
      && 0 <= i < |store| && 0 <= j < |store|
      && store[i].guess == guess && store[j].guess == guess
      && store[i].date == store[j].date
      ==> store[i] == store[j]
  }

  /**
   When no two different entries with `guess` share a date, the entry taken
   does not depend on the order in which the store is iterated.
   */
  lemma {:induction false} TakeIndependentOfOrder(s1: Store, s2: Store, guess: Int32)
    requires multiset(s1) == multiset(s2)
    requires DistinctDates(s1, guess)
    ensures RemoveFirstEntryGivenGuess(s1, guess).entry == RemoveFirstEntryGivenGuess(s2, guess).entry
  {
    var t1, t2 := RemoveFirstEntryGivenGuess(s1, guess), RemoveFirstEntryGivenGuess(s2, guess);
    if HasGuess(s1, guess) {
      var i :| 0 <= i < |s1| && s1[i].guess == guess;
      assert s1[i] in multiset(s2);
      assert t2.entry.Some?;
      var e1, e2 := t1.entry.value, t2.entry.value;
      assert e1 in multiset(s1);
      assert e2 in multiset(s1);
      assert e1 in s2 && e2 in s1;
      assert e1.date == e2.date;
      var a :| 0 <= a < |s1| && s1[a] == e1;
      var b :| 0 <= b < |s1| && s1[b] == e2;
    }
  }

  /**
   Two entries with one guess and dates `t1 < t2`: the `t1` entry is taken
   whichever order they were inserted in.
   */
  lemma {:induction false} TieBreakByDate(e1: Entry, e2: Entry)
    requires e1.guess == e2.guess && e1.date < e2.date
    ensures RemoveFirstEntryGivenGuess([e1, e2], e1.guess) == Taken(Some(e1), [e2])
    ensures RemoveFirstEntryGivenGuess([e2, e1], e1.guess) == Taken(Some(e1), [e2])
  {
    var g, s, s' := e1.guess, [e1, e2], [e2, e1];
    assert IsEarliest(s, g, 0);
    TakeReturnsEarliest(s, g, 0);
    assert RemoveAt(s, 0) == [e2];
    assert IsEarliest(s', g, 1);
    TakeReturnsEarliest(s', g, 1);
    assert RemoveAt(s', 1) == [e2];
  }

  /**
   An entry recorded for a guess the store did not hold is what the next take
   for that guess returns, and the take leaves the store as it was before.
   */
  lemma {:induction false} RecordThenTake(store: Store, e: Entry)
    requires !HasGuess(store, e.guess)
    ensures RemoveFirstEntryGivenGuess(Record(store, e), e.guess) == Taken(Some(e), store)
  {
    var r := Record(store, e);
    assert r[|store|] == e;
    var t := RemoveFirstEntryGivenGuess(r, e.guess);
    var i :| IsEarliest(r, e.guess, i) && r[i] == t.entry.value && t.rest == RemoveAt(r, i);
    assert i == |store|;
    assert r[..i] == store;
  }
}
