/** ID_list_find, ID_list_erase, ID_list_pop_back and ID_list_pop_front
    as the code is written, on the sequence of live items, set beside the
    documented and tested behaviour that GrowableList.List implements. */
module AsWritten {
  import opened ListSpec

  datatype Option<T> = None | Some(value: T)

  /** `list_uint` is 32 bits wide. */
  const UintModulus: nat := 0x1_0000_0000

  /** The find loop from index `i` on, with `nth` the current value of
      `p_nth`: it answers when the item matches and `p_nth` is 0, and
      otherwise decrements `p_nth`, wrapping from 0 to 2^32 - 1, for every
      item that is not such an answer. */
  function FindFrom<T(==)>(s: seq<T>, x: T, nth: nat, i: nat): (r: Option<nat>)
    requires nth < UintModulus && i <= |s|
    ensures r.Some? ==> i <= r.value < |s| && s[r.value] == x
    decreases |s| - i
  {
    if i == |s| then None
    else if s[i] == x && nth == 0 then Some(i)
    else FindFrom(s, x, if nth == 0 then UintModulus - 1 else nth - 1, i + 1)
  }

  function Find<T(==)>(s: seq<T>, x: T, nth: nat): (r: Option<nat>)
    requires nth < UintModulus
    ensures r.Some? ==> r.value < |s| && s[r.value] == x
  {
    FindFrom(s, x, nth, 0)
  }

  /** `p_nth` after `i` steps of the loop: nth - i modulo 2^32. */
  function Counter(nth: nat, i: nat): (c: nat)
    requires nth < UintModulus && i <= UintModulus
    ensures c < UintModulus
  {
    if i <= nth then nth - i else nth + UintModulus - i
  }

  /** Since `p_nth` drops on every step, it is 0 only at index nth: the
      code as written answers nth exactly when the item is there, and
      fails otherwise, however often the item occurs. */
  lemma {:induction false} FindFromOnlyAtNth<T>(s: seq<T>, x: T, nth: nat, i: nat)
    requires nth < UintModulus && i <= |s| <= UintModulus
    ensures FindFrom(s, x, Counter(nth, i), i)
            == if i <= nth < |s| && s[nth] == x then Some(nth) else None
    decreases |s| - i
  {
    if i < |s| {
      FindFromOnlyAtNth(s, x, nth, i + 1);
    }
  }

  lemma {:induction false} FindOnlyAtNth<T>(s: seq<T>, x: T, nth: nat)
    requires nth < UintModulus && |s| <= UintModulus
    ensures Find(s, x, nth) == if nth < |s| && s[nth] == x then Some(nth) else None
  {
    FindFromOnlyAtNth(s, x, nth, 0);
  }

  /** On the list of the find tests: the first 3 is at index 2 and the
      second 2 at index 5, but the code as written finds no 3 at all and
      answers 1 for the second 2, the index of the first one. */
  lemma FindTestsDisagree()
    ensures Find([1, 2, 3, 4, 5, 2], 3, 0) == None
    ensures Occurrences([1, 2, 3, 4, 5, 2][..2], 3) == 0
    ensures Find([1, 2, 3, 4, 5, 2], 2, 1) == Some(1)
    ensures Occurrences([1, 2, 3, 4, 5, 2][..1], 2) == 0
    ensures Occurrences([1, 2, 3, 4, 5, 2][..5], 2) == 1
  {
    FindOnlyAtNth([1, 2, 3, 4, 5, 2], 3, 0);
    FindOnlyAtNth([1, 2, 3, 4, 5, 2], 2, 1);
    assert [1, 2, 3, 4, 5, 2][..1] == [1];
    assert [1, 2, 3, 4, 5, 2][..2] == [1, 2];
    assert [1, 2, 3, 4, 5, 2][..5] == [1, 2, 3, 4, 5];
    assert [1, 2, 3, 4, 5][..4] == [1, 2, 3, 4];
    assert [1, 2, 3, 4][..3] == [1, 2, 3];
    assert [1, 2, 3][..2] == [1, 2];
    assert [1, 2][..1] == [1];
  }

  /** What the erase loop as written does. */
  datatype EraseOutcome<T> = OutOfRange | ReadsBeforeBuffer | Erased(rest: seq<T>)

  /** The erase loop `for (i = index; i < last; i--) items[i] = items[i - 1]`
      on a buffer `buf`: None when it reads items[-1], which it does as soon
      as it runs with i = 0. */
  function EraseShift<T>(buf: seq<T>, i: nat, last: nat): (r: Option<seq<T>>)
    requires i < |buf|
    ensures r.Some? ==> |r.value| == |buf|
    decreases i
  {
    if i >= last then Some(buf)
    else if i == 0 then None
    else EraseShift(buf[i := buf[i - 1]], i - 1, last)
  }

  /** ID_list_erase as written: OutOfRange when the index check fails,
      ReadsBeforeBuffer when the loop reaches items[-1], and otherwise the
      first length - 1 slots of the buffer. */
  function Erase<T>(s: seq<T>, index: nat): (r: EraseOutcome<T>)
    ensures r == OutOfRange <==> index >= |s|
    ensures r.Erased? ==> |r.rest| == |s| - 1
  {
    if index >= |s| then OutOfRange
    else match EraseShift(s, index, |s| - 1)
      case None => ReadsBeforeBuffer
      case Some(buf) => Erased(buf[..|s| - 1])
  }

  /** The erase loop as written runs downwards into items[-1] for every
      index but the last; only erasing the last item works. */
  lemma {:induction false} EraseWorksOnlyAtEnd<T>(s: seq<T>, index: nat)
    requires index < |s|
    ensures index < |s| - 1 ==> Erase(s, index) == ReadsBeforeBuffer
    ensures index == |s| - 1 ==> Erase(s, index) == Erased(Removed(s, index))
  {
    if index < |s| - 1 {
      ShiftReadsBeforeBuffer(s, index, |s| - 1);
    }
  }

  lemma {:induction false} ShiftReadsBeforeBuffer<T>(buf: seq<T>, i: nat, last: nat)
    requires i < |buf| && i < last
    ensures EraseShift(buf, i, last) == None
    decreases i
  {
    if i > 0 {
      ShiftReadsBeforeBuffer(buf[i := buf[i - 1]], i - 1, last);
    }
  }

  /** The erase test removes index 3 of [1, 2, 3, 4, 5, 2], expecting
      [1, 2, 3, 5, 2]; the code as written reads before the buffer. */
  lemma EraseTestReadsBeforeBuffer()
    ensures Erase([1, 2, 3, 4, 5, 2], 3) == ReadsBeforeBuffer
    ensures Removed([1, 2, 3, 4, 5, 2], 3) == [1, 2, 3, 5, 2]
  {
    EraseWorksOnlyAtEnd([1, 2, 3, 4, 5, 2], 3);
  }

  /** What pop_back as written does. */
  datatype PopBackOutcome = ReadsPastBuffer | Fails | Pops

  /** pop_back as written, on the live items `s` of a buffer of `capacity`
      slots: it first reads items[length], which lies outside the
      allocation when the buffer is full or none is owned (capacity 0, a
      NULL buffer), and then calls erase(length) and reports its flag. */
  function PopBack<T>(s: seq<T>, capacity: nat): (r: PopBackOutcome)
    requires |s| <= capacity
    ensures r == ReadsPastBuffer <==> |s| == capacity
    ensures r == Pops ==> |s| > 0
  {
    if |s| == capacity then ReadsPastBuffer
    else if Erase(s, |s|).Erased? then Pops
    else Fails
  }

  /** pop_back as written never reports success: on a full buffer or a
      list without one it reads past the allocation, and otherwise the
      erase of index length is out of range, the non-empty list of its
      test included. */
  lemma PopBackAlwaysFails<T>(s: seq<T>, capacity: nat)
    requires |s| <= capacity
    ensures PopBack(s, capacity) != Pops
    ensures |s| < capacity ==> PopBack(s, capacity) == Fails
  {
  }

  /** pop_front as written: read items[0], then erase(0). On every list of
      two or more items that erase reads items[-1], the seven-item list of
      its test included. */
  lemma {:induction false} PopFrontReadsBeforeBuffer<T>(s: seq<T>)
    requires |s| >= 2
    ensures Erase(s, 0) == ReadsBeforeBuffer
  {
    EraseWorksOnlyAtEnd(s, 0);
  }

  /** The pop_front test pops 25 from [25, 1, 2, 3, 4, 5, 2], expecting
      [1, 2, 3, 4, 5, 2]; the code as written reads before the buffer. */
  lemma PopFrontTestReadsBeforeBuffer()
    ensures Erase([25, 1, 2, 3, 4, 5, 2], 0) == ReadsBeforeBuffer
    ensures Removed([25, 1, 2, 3, 4, 5, 2], 0) == [1, 2, 3, 4, 5, 2]
  {
    PopFrontReadsBeforeBuffer([25, 1, 2, 3, 4, 5, 2]);
  }
}
