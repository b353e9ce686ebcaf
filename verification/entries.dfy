/**
 The `Entry` record: the hash of the funding transaction, the committed guess
 and the local time the transaction was sent.
 */
module Entries {
  import opened JavaInt

  /** A SHA-256 digest. */
  type Hash = s: seq<byte> | |s| == 32 witness seq(32, i => 0 as byte)

  /** A lottery entry; `date` is `Date.getTime()`, milliseconds since the epoch. */
  datatype Entry = Entry(hash: Hash, guess: Int32, date: int)

  /** The argument of `equals(Object)`: `null`, an `Entry`, or anything else. */
  datatype Object = Null | AnEntry(entry: Entry) | NotAnEntry

  /**
   `Entry.equals`: true only for another entry with the same hash, guess and
   date. Java compares the hash and date objects by reference; here they are
   compared as values.
   */
  function Equals(self: Entry, o: Object): (r: bool)
    ensures !o.AnEntry? ==> !r
    ensures r <==> o == AnEntry(self)
  {
    match o
    case AnEntry(other) =>
      other.hash == self.hash && other.guess == self.guess && other.date == self.date
    case _ => false
  }

  /** The getters hand back exactly what the constructor was given. */
  lemma {:induction false} GettersReturnConstructorArguments(h: Hash, g: Int32, d: int)
    ensures Entry(h, g, d).hash == h
    ensures Entry(h, g, d).guess == g
    ensures Entry(h, g, d).date == d
  {
  }

  /** `equals` holds exactly between entries that agree on every field. */
  lemma {:induction false} EqualsIsFieldEquality(a: Entry, b: Entry)
    ensures Equals(a, AnEntry(b)) <==> a == b
  {
  }

  /** `equals` is reflexive. */
  lemma {:induction false} EqualsReflexive(a: Entry)
    ensures Equals(a, AnEntry(a))
  {
  }

  /** `equals` is symmetric. */
  lemma {:induction false} EqualsSymmetric(a: Entry, b: Entry)
    ensures Equals(a, AnEntry(b)) <==> Equals(b, AnEntry(a))
  {
  }

  /** `equals` is transitive. */
  lemma {:induction false} EqualsTransitive(a: Entry, b: Entry, c: Entry)
    requires Equals(a, AnEntry(b)) && Equals(b, AnEntry(c))
    ensures Equals(a, AnEntry(c))
  {
  }
}
