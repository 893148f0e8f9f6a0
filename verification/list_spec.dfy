/** The abstract view of a list: the sequence of its live items, and what
    the list operations do to that sequence. */
module ListSpec {

  /** The items after `x` is put at `i` and the items from `i` on are
      pushed back one slot. */
  function Inserted<T>(s: seq<T>, i: nat, x: T): (r: seq<T>)
    requires i <= |s|
    ensures |r| == |s| + 1 && r[i] == x
    ensures forall j :: 0 <= j < i ==> r[j] == s[j]
    ensures forall j :: i < j < |r| ==> r[j] == s[j - 1]
  {
    s[..i] + [x] + s[i..]
  }

  /** The items after the one at `i` is removed and the items behind it
      are pushed to the front one slot. */
  function Removed<T>(s: seq<T>, i: nat): (r: seq<T>)
    requires i < |s|
    ensures |r| == |s| - 1
    ensures forall j :: 0 <= j < i ==> r[j] == s[j]
    ensures forall j :: i <= j < |r| ==> r[j] == s[j + 1]
  {
    s[..i] + s[i + 1..]
  }

  /** Erasing what was just inserted at the same index gives the list back. */
  lemma RemovedInserted<T>(s: seq<T>, i: nat, x: T)
    requires i <= |s|
    ensures Removed(Inserted(s, i, x), i) == s
  {
  }

  /** Inserting at the end is appending; at the front, prepending. */
  lemma InsertedAtEnds<T>(s: seq<T>, x: T)
    ensures Inserted(s, |s|, x) == s + [x]
    ensures Inserted(s, 0, x) == [x] + s
  {
  }

  /** Removing the last item leaves the prefix; the first, the suffix. */
  lemma RemovedAtEnds<T>(s: seq<T>)
    requires |s| > 0
    ensures Removed(s, |s| - 1) == s[..|s| - 1]
    ensures Removed(s, 0) == s[1..]
  {
  }

  /** Number of items equal to `x`. */
  function Occurrences<T(==)>(s: seq<T>, x: T): (n: nat)
    ensures n <= |s|
    ensures n == 0 <==> x !in s
  {
    if s == [] then 0
    else Occurrences(s[..|s| - 1], x) + (if s[|s| - 1] == x then 1 else 0)
  }

  lemma {:induction false} OccurrencesPrefix<T>(s: seq<T>, x: T, i: nat)
    requires i < |s|
    ensures Occurrences(s[..i + 1], x) == Occurrences(s[..i], x) + (if s[i] == x then 1 else 0)
  {
    assert s[..i + 1][..i] == s[..i];
  }

  /** A prefix never holds more occurrences than the whole. */
  lemma {:induction false} OccurrencesMonotone<T>(s: seq<T>, x: T, i: nat)
    requires i <= |s|
    ensures Occurrences(s[..i], x) <= Occurrences(s, x)
    decreases |s| - i
  {
    if i < |s| {
      OccurrencesPrefix(s, x, i);
      OccurrencesMonotone(s, x, i + 1);
    } else {
      assert s[..i] == s;
    }
  }

  /** The position of the (nth+1)-th item equal to `x` is unique: two
      positions holding `x` with the same count of earlier occurrences
      are the same position. */
  lemma {:induction false} NthOccurrenceUnique<T>(s: seq<T>, x: T, i: nat, j: nat)
    requires i < |s| && j < |s| && s[i] == x && s[j] == x
    requires Occurrences(s[..i], x) == Occurrences(s[..j], x)
    ensures i == j
  {
    if i < j {
      assert s[..j][..i + 1] == s[..i + 1];
      OccurrencesPrefix(s, x, i);
      OccurrencesMonotone(s[..j], x, i + 1);
    } else if j < i {
      assert s[..i][..j + 1] == s[..j + 1];
      OccurrencesPrefix(s, x, j);
      OccurrencesMonotone(s[..i], x, j + 1);
    }
  }
}
