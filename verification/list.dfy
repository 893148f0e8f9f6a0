/** The growable list that LIST_DEFINE_STRUCT, LIST_DEFINE_GETTER and
    LIST_DEFINE_SETTER generate for one item type, with the item type as a
    type parameter. The model follows the documented and tested behaviour
    of erase and pop_back; the code as written is modelled in AsWritten. */
module GrowableList {
  import opened Growth
  import opened ListSpec

  /** realloc: a fresh buffer of `count` slots that starts with the old
      buffer's contents, or null when allocation fails (`succeeds` false),
      in which case the old buffer is untouched. */
  method Realloc<T(0)>(buffer: array?<T>, count: nat, succeeds: bool) returns (r: array?<T>)
    requires buffer != null ==> buffer.Length <= count
    ensures succeeds <==> r != null
    ensures r != null ==> fresh(r) && r.Length == count
    ensures r != null && buffer != null ==> r[..buffer.Length] == buffer[..]
  {
    if !succeeds {
      return null;
    }
    r := new T[count];
    if buffer != null {
      forall i | 0 <= i < buffer.Length {
        r[i] := buffer[i];
      }
    }
  }

  /** struct ID_list. `items` is null exactly when no buffer is owned
      (capacity 0); slots from `length` to `capacity` hold unspecified
      values. Allocation failure of realloc is the parameter
      `allocSucceeds` of the operations that grow the buffer. */
  class List<T(==,0)> {
    var capacity: nat
    var length: nat
    var items: array?<T>
    /** The live items, items[0..length). */
    ghost var contents: seq<T>

    ghost predicate Valid()
      reads this, items
    {
      length <= capacity &&
      (items == null <==> capacity == 0) &&
      (items == null ==> contents == []) &&
      (items != null ==> items.Length == capacity && contents == items[..length])
    }

    /** A zero-valued list, `struct ID_list list = {0}` or ID_list_new. */
    constructor ()
      ensures Valid() && contents == []
      ensures capacity == 0 && length == 0 && items == null
    {
      capacity := 0;
      length := 0;
      items := null;
      contents := [];
    }

    /** ID_list_get: `prior` is what the output variable held before the
        call; it is left as it was when the index is out of range. */
    method Get(index: nat, prior: T) returns (ok: bool, item: T)
      requires Valid()
      ensures ok <==> index < |contents|
      ensures item == if ok then contents[index] else prior
    {
      if index >= length {
        return false, prior;
      }
      return true, items[index];
    }

    /** ID_list_length. */
    method Length() returns (n: nat)
      requires Valid()
      ensures n == |contents|
    {
      return length;
    }

    /** ID_list_find: the index of the (nth+1)-th item equal to `item`,
        scanning from index 0; `prior` is kept when there are fewer. */
    method Find(item: T, nth: nat, prior: nat) returns (ok: bool, index: nat)
      requires Valid()
      ensures ok <==> nth < Occurrences(contents, item)
      ensures ok ==> index < |contents| && contents[index] == item
                     && Occurrences(contents[..index], item) == nth
      ensures !ok ==> index == prior
    {
      var remaining := nth;
      var i := 0;
      while i < length
        invariant i <= length
        invariant Occurrences(contents[..i], item) + remaining == nth
      {
        OccurrencesPrefix(contents, item, i);
        if items[i] == item {
          if remaining == 0 {
            OccurrencesMonotone(contents, item, i + 1);
            return true, i;
          }
          remaining := remaining - 1;
        }
        i := i + 1;
      }
      assert contents[..i] == contents;
      return false, prior;
    }

    /** ID_list_equal: same length and the same item at every index. */
    method Equal(other: List<T>) returns (r: bool)
      requires Valid() && other.Valid()
      ensures r <==> |contents| == |other.contents|
                     && forall i :: 0 <= i < |contents| ==> contents[i] == other.contents[i]
      ensures r <==> contents == other.contents
    {
      if length != other.length {
        return false;
      }
      var i := 0;
      while i < length
        invariant i <= length
        invariant forall j :: 0 <= j < i ==> contents[j] == other.contents[j]
      {
        if items[i] != other.items[i] {
          return false;
        }
        i := i + 1;
      }
      return true;
    }

    /** The static helper ID_list_make_space: doubles a working capacity,
        starting from the current one or InitItemCount, until it holds
        `need` items, then reallocates the buffer to that capacity. The
        reallocation happens even when the capacity does not change. */
    method MakeSpace(need: nat, allocSucceeds: bool) returns (ok: bool)
      requires Valid()
      modifies this
      ensures Valid()
      ensures ok == allocSucceeds
      ensures length == old(length) && contents == old(contents)
      ensures ok ==> capacity == GrownCapacity(old(capacity), need) && fresh(items)
      ensures !ok ==> unchanged(this)
    {
      var newCapacity := if capacity != 0 then capacity else InitItemCount;
      while newCapacity < need
        invariant 0 < newCapacity
        invariant Grow(newCapacity, need) == GrownCapacity(capacity, need)
        modifies {}
        decreases need - newCapacity
      {
        newCapacity := newCapacity * 2;
      }
      var newItems := Realloc(items, newCapacity, allocSucceeds);
      if newItems == null {
        return false;
      }
      assert newItems[..length] == newItems[..capacity][..length];
      items := newItems;
      capacity := newCapacity;
      return true;
    }

    /** ID_list_from_array: the first `n` items of `src` become the list's
        items, after make_space(n). `n <= src.Length` is the C caller's duty
        to pass an array of at least `n` items. */
    method FromArray(src: array<T>, n: nat, allocSucceeds: bool) returns (ok: bool)
      requires Valid() && n <= src.Length
      modifies this
      ensures Valid()
      ensures ok == allocSucceeds
      ensures ok ==> contents == old(src[..n]) && capacity == GrownCapacity(old(capacity), n)
      ensures ok ==> fresh(items)
      ensures !ok ==> unchanged(this) && (items != null ==> unchanged(items))
    {
      ok := MakeSpace(n, allocSucceeds);
      if !ok {
        return;
      }
      forall i | 0 <= i < n {
        items[i] := src[i];
      }
      length := n;
      contents := items[..n];
    }

    /** ID_list_set: overwrites the item at `index` when it is in range. */
    method Set(item: T, index: nat) returns (ok: bool)
      requires Valid()
      modifies this, items
      ensures Valid()
      ensures ok <==> index < old(|contents|)
      ensures contents == if ok then old(contents)[index := item] else old(contents)
      ensures capacity == old(capacity) && length == old(length) && items == old(items)
      ensures !ok ==> items != null ==> unchanged(items)
    {
      if index >= length {
        return false;
      }
      items[index] := item;
      contents := contents[index := item];
      return true;
    }

    /** ID_list_insert: fails on an index past the end or when the buffer
        cannot grow; otherwise shifts items[index..length) one slot back,
        starting from the end, and stores `item` at `index`. */
    method Insert(item: T, index: nat, allocSucceeds: bool) returns (ok: bool)
      requires Valid()
      modifies this
      ensures Valid()
      ensures ok <==> index <= old(|contents|) && allocSucceeds
      ensures ok ==> contents == Inserted(old(contents), index, item)
      ensures ok ==> capacity == GrownCapacity(old(capacity), old(length) + 1) && fresh(items)
      ensures !ok ==> unchanged(this) && (items != null ==> unchanged(items))
    {
      if index > length {
        return false;
      }
      ok := MakeSpace(length + 1, allocSucceeds);
      if !ok {
        return;
      }
      ghost var s := contents;
      var i := length;
      while i > index
        invariant index <= i <= length
        invariant forall j :: 0 <= j < i ==> items[j] == s[j]
        invariant forall j :: i < j <= length ==> items[j] == s[j - 1]
        modifies items
      {
        items[i] := items[i - 1];
        i := i - 1;
      }
      items[index] := item;
      length := length + 1;
      contents := Inserted(s, index, item);
      assert items[..length] == contents;
    }

    /** ID_list_erase, as documented: fails on an index out of range;
        otherwise shifts items(index..length) one slot to the front. The
        buffer is kept. */
    method Erase(index: nat) returns (ok: bool)
      requires Valid()
      modifies this, items
      ensures Valid()
      ensures ok <==> index < old(|contents|)
      ensures ok ==> contents == Removed(old(contents), index)
      ensures capacity == old(capacity) && items == old(items)
      ensures !ok ==> unchanged(this) && (items != null ==> unchanged(items))
    {
      if index >= length {
        return false;
      }
      ghost var s := contents;
      var i := index;
      while i < length - 1
        invariant index <= i <= length - 1
        invariant forall j :: 0 <= j < index ==> items[j] == s[j]
        invariant forall j :: index <= j < i ==> items[j] == s[j + 1]
        invariant forall j :: i <= j < length ==> items[j] == s[j]
        modifies items
      {
        items[i] := items[i + 1];
        i := i + 1;
      }
      length := length - 1;
      contents := Removed(s, index);
      assert items[..length] == contents;
      return true;
    }

    /** ID_list_append: insert at `length`. */
    method Append(item: T, allocSucceeds: bool) returns (ok: bool)
      requires Valid()
      modifies this
      ensures Valid()
      ensures ok == allocSucceeds
      ensures contents == if ok then old(contents) + [item] else old(contents)
      ensures ok ==> capacity == GrownCapacity(old(capacity), old(length) + 1) && fresh(items)
      ensures !ok ==> unchanged(this) && (items != null ==> unchanged(items))
    {
      InsertedAtEnds(contents, item);
      ok := Insert(item, length, allocSucceeds);
    }

    /** ID_list_prepend: insert at 0. */
    method Prepend(item: T, allocSucceeds: bool) returns (ok: bool)
      requires Valid()
      modifies this
      ensures Valid()
      ensures ok == allocSucceeds
      ensures contents == if ok then [item] + old(contents) else old(contents)
      ensures ok ==> capacity == GrownCapacity(old(capacity), old(length) + 1) && fresh(items)
      ensures !ok ==> unchanged(this) && (items != null ==> unchanged(items))
    {
      InsertedAtEnds(contents, item);
      ok := Insert(item, 0, allocSucceeds);
    }

    /** ID_list_pop_back, as documented and tested: the last item is read
        and erased; an empty list fails and `prior` is kept. */
    method PopBack(prior: T) returns (ok: bool, popped: T)
      requires Valid()
      modifies this, items
      ensures Valid()
      ensures ok <==> old(|contents|) > 0
      ensures popped == if ok then old(contents[|contents| - 1]) else prior
      ensures contents == if ok then old(contents[..|contents| - 1]) else old(contents)
      ensures capacity == old(capacity) && items == old(items)
    {
      if length == 0 {
        return false, prior;
      }
      popped := items[length - 1];
      RemovedAtEnds(contents);
      ok := Erase(length - 1);
    }

    /** ID_list_pop_front: the first item is read and erased; an empty list
        fails and `prior` is kept. */
    method PopFront(prior: T) returns (ok: bool, popped: T)
      requires Valid()
      modifies this, items
      ensures Valid()
      ensures ok <==> old(|contents|) > 0
      ensures popped == if ok then old(contents[0]) else prior
      ensures contents == if ok then old(contents[1..]) else old(contents)
      ensures capacity == old(capacity) && items == old(items)
    {
      if length == 0 {
        return false, prior;
      }
      popped := items[0];
      RemovedAtEnds(contents);
      ok := Erase(0);
    }
  }
}
