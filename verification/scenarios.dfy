/** The cases of the list's test driver, replayed against the contracts of
    GrowableList.List: whatever these methods assert follows from the
    contracts alone. Every allocation is taken to succeed, as the tests
    do not check it. */
module ListScenarios {
  import opened ListSpec
  import opened Growth
  import opened GrowableList

  method ListOf(values: seq<int>) returns (l: List<int>)
    ensures l.Valid() && l.contents == values && fresh(l) && fresh(l.items)
  {
    var src := new int[|values|](i requires 0 <= i < |values| => values[i]);
    l := new List<int>();
    var ok := l.FromArray(src, src.Length, true);
    assert src[..] == values;
  }

  method FindScenario()
  {
    var l := ListOf([1, 2, 3, 4, 5, 2]);
    var s := [1, 2, 3, 4, 5, 2];
    assert s[..1] == [1] && s[..2] == [1, 2];
    assert s[..5] == [1, 2, 3, 4, 5] && s[..5][..4] == [1, 2, 3, 4];
    assert s[..5][..4][..3] == [1, 2, 3];

    var ok, index := l.Find(3, 0, 0);
    assert Occurrences(s[..2], 3) == 0;
    NthOccurrenceUnique(s, 3, index, 2);
    assert ok && index == 2;

    ok, index := l.Find(6, 0, 0);
    assert !ok && index == 0;

    ok, index := l.Find(2, 1, 0);
    assert Occurrences(s[..5], 2) == 1;
    NthOccurrenceUnique(s, 2, index, 5);
    assert ok && index == 5;

    ok, index := l.Find(3, 1, 0);
    assert s == s[..5] + [2];
    assert !ok && index == 0;
  }

  /** The equal test fills list_b from array_a and then refills the same
      list, which already owns a buffer, from array_b. */
  method EqualScenario()
  {
    var arrayA := new int[6](i requires 0 <= i < 6 => [1, 2, 3, 4, 5, 2][i]);
    var arrayB := new int[6](i requires 0 <= i < 6 => [1, 4, 3, 4, 5, 2][i]);
    assert arrayA[..] == [1, 2, 3, 4, 5, 2] && arrayB[..] == [1, 4, 3, 4, 5, 2];
    var a := new List<int>();
    var b := new List<int>();
    var ok := a.FromArray(arrayA, 6, true);
    ok := b.FromArray(arrayA, 6, true);
    var r := a.Equal(b);
    assert r;
    ok := b.FromArray(arrayB, 6, true);
    r := a.Equal(b);
    assert a.contents[1] != b.contents[1];
    assert !r;
  }

  method GetSetScenario()
  {
    var l := ListOf([1, 2, 3, 4, 5]);
    var ok, item := l.Get(5, 0);
    assert !ok && item == 0;
    ok, item := l.Get(2, 0);
    assert ok && item == 3;

    var b := ListOf([1, 4, 3, 4, 5, 2]);
    ok := b.Set(2, 1);
    assert ok && b.contents == [1, 2, 3, 4, 5, 2];
    ok := b.Set(2, 20);
    assert !ok && b.contents == [1, 2, 3, 4, 5, 2];
  }

  method LengthScenario()
  {
    var l := ListOf([1, 2, 3, 4, 5]);
    var n := l.Length();
    assert n == 5;
  }

  method InsertEraseScenario()
  {
    var l := ListOf([1, 2, 3, 4, 5, 2]);
    var ok := l.Insert(6, 2, true);
    assert ok && l.contents == [1, 2, 6, 3, 4, 5, 2];
    ok := l.Set(2, 20);
    assert !ok && l.contents == [1, 2, 6, 3, 4, 5, 2];

    var e := ListOf([1, 2, 3, 4, 5, 2]);
    ok := e.Erase(3);
    assert ok && e.contents == [1, 2, 3, 5, 2];
    ok := e.Erase(20);
    assert !ok && e.contents == [1, 2, 3, 5, 2];
  }

  method AppendPrependScenario()
  {
    var l := ListOf([1, 2, 3, 4, 5, 2]);
    var ok := l.Append(6, true);
    assert ok && l.contents == [1, 2, 3, 4, 5, 2, 6];

    var p := ListOf([1, 2, 3, 4, 5, 2]);
    ok := p.Prepend(10, true);
    assert ok && p.contents == [10, 1, 2, 3, 4, 5, 2];
  }

  method PopScenario()
  {
    var l := ListOf([1, 2, 3, 4, 5, 2]);
    var ok, popped := l.PopBack(0);
    assert ok && popped == 2 && l.contents == [1, 2, 3, 4, 5];

    var f := ListOf([25, 1, 2, 3, 4, 5, 2]);
    ok, popped := f.PopFront(0);
    assert ok && popped == 25 && f.contents == [1, 2, 3, 4, 5, 2];
  }

  /** Insert at i then erase at i gives back the list it started from. */
  method InsertEraseRoundTrip(l: List<int>, x: int, i: nat)
    requires l.Valid() && i <= |l.contents|
    modifies l, l.items
  {
    ghost var before := l.contents;
    var ok := l.Insert(x, i, true);
    ok := l.Erase(i);
    RemovedInserted(before, i, x);
    assert ok && l.contents == before;
  }

  /** Append then pop_back, and prepend then pop_front, give back the item
      and the list they started from. */
  method PushPopRoundTrip(l: List<int>, x: int)
    requires l.Valid()
    modifies l, l.items
  {
    ghost var before := l.contents;
    var ok := l.Append(x, true);
    var popped;
    ok, popped := l.PopBack(0);
    assert ok && popped == x && l.contents == before;

    ok := l.Prepend(x, true);
    ok, popped := l.PopFront(0);
    assert ok && popped == x && l.contents == before;
  }

  /** `n` appends to a new list: it holds the n items in order and has the
      capacity AppendCapacity(n), which AppendGrowthIsLogarithmic bounds. */
  method AppendRun(n: nat) returns (l: List<int>)
    ensures l.Valid() && l.contents == seq(n, i => i)
    ensures l.capacity == AppendCapacity(n)
  {
    l := new List<int>();
    var i := 0;
    while i < n
      invariant i <= n && l.Valid()
      invariant l.contents == seq(i, j => j)
      invariant l.capacity == AppendCapacity(i)
      invariant fresh(l)
    {
      var ok := l.Append(i, true);
      assert seq(i + 1, j => j) == seq(i, j => j) + [i];
      i := i + 1;
    }
  }
}
