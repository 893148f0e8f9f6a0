# Growable list (`include/list.h`) in Dafny

`include/list.h` is a set of C macros. For one item type, they generate a
growable array, `struct ID_list`, with three fields: `capacity`, `length`
and `items`. They also generate the list's getters and setters. The buffer
starts at `LIST_INIT_ITEM_COUNT` (20) slots and doubles until it fits the
request. Insert and erase shift items in place.

This project models that list for a generic item type `T`. It has five modules:

- `Growth` (growth.dfy): the capacity that `make_space` computes, as
  functions. Lemmas show the growth is geometric, minimal and, over a run
  of appends, logarithmic in the number of capacity changes.
- `ListSpec` (list_spec.dfy): the abstract view of the list as a sequence
  of items. It defines what insertion, removal and counting occurrences
  mean, and proves the laws that relate them.
- `GrowableList` (list.dfy): class `List<T>`, the struct itself. Its
  fields are `capacity`, `length` and `items`, an array that is null
  exactly when no buffer is owned. A ghost field `contents` holds the live
  items, `items[0..length)`. Every operation is a method. Each method's
  contract gives the new `contents`, `capacity` and result in terms of the
  old ones. Each keeps the invariant `Valid()`, which includes
  `length <= capacity`. Find, equal, insert, erase and make_space keep the
  source's loops, proved with loop invariants.
- `AsWritten` (as_written.dfy): `find`, `erase`, `pop_back` and `pop_front` as the code
  is written. Their documentation and tests promise something else (see
  "## Findings").
- `ListScenarios` (scenarios.dfy): the cases of `test/test_list.c`,
  replayed against the contracts of `List`. It also covers the
  insert/erase, append/pop_back and prepend/pop_front round trips.

`realloc` can fail. Every operation that grows the buffer therefore takes a
parameter `allocSucceeds`, which the caller chooses. When it is false, the
operation returns false and the list is unchanged. The C out-parameters
`r_item`, `r_index` and `r_popped` become results. The value the caller's
variable held before the call is passed in as `prior`, and a failing call
returns it unchanged. This matches the C behaviour of leaving `*r_...`
unwritten.

Where the code and its documentation disagree, the class follows the
documentation and `test/test_list.c`:

- `erase` shifts the items behind the removed one toward the front.
- `pop_back` removes the last item and returns it.
- `find` returns the (nth+1)-th occurrence.

The code as written is modelled and contrasted in `AsWritten`. Other
points where the model departs from the text:

- `from_array` is declared `void` (include/list.h:302) but defined `bool`
  (include/list.h:331). The model follows the definition.
- `pop_front` reads `items[0]` before `erase` checks that the list is not
  empty. On a list that never owned a buffer, that read dereferences
  NULL. `PopFront` reads the item only after the emptiness check. It then
  erases index 0 with the documented erase, not the one as written (see
  "## Findings").
- `pop_back` reads `items[length]` (include/list.h:365) before `erase`
  checks the index. That read dereferences NULL on a list that never
  owned a buffer, and lies one slot past the allocation when the buffer
  is full. `AsWritten.PopBack` reports both as `ReadsPastBuffer`.
  `PopBack` reads the last item only after the emptiness check.
- `make_space` calls `realloc` every time, even when the capacity already
  suffices, so every insert reallocates. Only the capacity changes
  logarithmically often over a run of appends. `MakeSpace` allocates a
  fresh buffer on every successful call.
- The test case labelled "insert with invalid index"
  (test/test_list.c:225-226) calls `set`, not `insert`.
  `ListScenarios.InsertEraseScenario` replays that call on the list after
  the insert. The contract of `Insert` states the failing `insert` (index
  past the end) directly.
- `ListScenarios.EqualScenario` refills a list that already owns a buffer
  from a second array, as test/test_list.c:89 does.
- `ListScenarios.AppendRun` ties a run of `n` appends to a new list to
  `Growth.AppendCapacity(n)`.

## Model

| member | source | states |
|---|---|---|
| Growth.Start | include/list.h:323 | make_space doubles from the current capacity, or from LIST_INIT_ITEM_COUNT = 20 when there is no buffer; the start is positive and never below the capacity |
| Growth.Doubled | include/list.h:324 | c doubled k times is never below c |
| Growth.Doublings | include/list.h:324 | the number k of doublings the loop performs: need <= start * 2^k and, for k > 0, start * 2^(k-1) < need |
| Growth.DoubledMono | include/list.h:324 | doubling more often never gives a smaller capacity |
| Growth.DoublingsLeast | include/list.h:324 | every k with need <= start * 2^k is at least Doublings(start, need): the loop stops at the least sufficient count |
| Growth.Grow | include/list.h:324 | the doubling loop's result holds `need`, is never below its start, and is the start itself or less than twice the need |
| Growth.GrownCapacity | include/list.h:322-330 | the new capacity holds `need` items, never decreases, is at least 20 from zero, and is the start itself or less than twice the need |
| Growth.GrowDoubles | include/list.h:324 | the loop stops after exactly Doublings(start, need) doublings |
| Growth.DoubledStep | include/list.h:324 | one more doubling doubles the result |
| Growth.DoubledIsPowerMultiple | include/list.h:324 | doubling k times multiplies by 2^k |
| Growth.DoublingsUnique | include/list.h:324 | only one k satisfies "need <= start * 2^k and start * 2^(k-1) < need", so the doubling count is determined |
| Growth.GrownCapacityIsLeastDoubling | include/list.h:322-330 | the new capacity is exactly start * 2^k for the least k that holds the need: 20 * 2^k from zero, old * 2^k otherwise |
| Growth.NoGrowthWithRoom | include/list.h:322-330 | with a buffer that already holds `need`, the capacity stays the same |
| Growth.FullBufferDoubles | include/list.h:342-344 | inserting into a full buffer of capacity c makes it 2c |
| Growth.FirstBuffer | include/list.h:48-50 | the first buffer has 20 slots when at most 20 are needed |
| Growth.AppendCapacity | include/list.h:358-360 | after n appends to an empty list the capacity is at least n |
| Growth.AppendGrowthIsLogarithmic | include/list.h:342-344 | after n appends the capacity is 20 doubled g - 1 times for g capacity changes, and 20 doubled g - 2 times is below n, so g is logarithmic in n |
| ListSpec.Inserted | include/list.h:342-350 | inserting x at i: one item longer, x at i, items before i kept, items from i on pushed one slot back |
| ListSpec.Removed | include/list.h:232-244 | erasing at i: one item shorter, items before i kept, items behind i pushed one slot to the front |
| ListSpec.RemovedInserted | include/list.h:342-357 | erasing at i what was inserted at i gives the original items back |
| ListSpec.InsertedAtEnds | include/list.h:358-363 | insert at length is appending, insert at 0 is prepending |
| ListSpec.RemovedAtEnds | include/list.h:364-375 | erasing at length - 1 leaves the prefix, erasing at 0 the suffix |
| ListSpec.Occurrences | include/list.h:97-111 | the count of items equal to x is at most the length, and 0 exactly when x is absent |
| ListSpec.NthOccurrenceUnique | include/list.h:97-111 | two positions of x with the same number of earlier x's are equal: the (nth+1)-th occurrence is well defined |
| GrowableList.Realloc | include/list.h:325-327 | realloc: null when allocation fails; otherwise a fresh buffer of the requested size that starts with the old buffer's contents |
| GrowableList.List.constructor | include/list.h:312-314 | a new list has capacity 0, length 0, no buffer and no items |
| GrowableList.List.Get | include/list.h:132-136 | succeeds iff index < length, yields items[index], and leaves the output as it was on failure |
| GrowableList.List.Length | include/list.h:137-139 | the number of live items |
| GrowableList.List.Find | include/list.h:140-147 | succeeds iff x occurs more than nth times; the index then holds x with exactly nth x's before it; on failure the output is left as it was |
| GrowableList.List.Equal | include/list.h:148-153 | true iff both lengths match and the items agree at every index, i.e. the item sequences are equal |
| GrowableList.List.MakeSpace | include/list.h:322-330 | on success capacity = GrownCapacity(old capacity, need) with a fresh buffer holding the same items; on allocation failure nothing changes |
| GrowableList.List.FromArray | include/list.h:331-336 | on success the items are the first n of the source array and capacity is grown for n; on failure nothing changes |
| GrowableList.List.Set | include/list.h:337-341 | succeeds iff index < length and then changes only slot index; otherwise nothing changes |
| GrowableList.List.Insert | include/list.h:342-350 | succeeds iff index <= length and the buffer can grow; items become Inserted(old, index, item) and capacity grows for length + 1; on failure nothing changes |
| GrowableList.List.Erase | include/list.h:351-357 | succeeds iff index < length; items become Removed(old, index); the buffer and capacity are kept; on failure nothing changes |
| GrowableList.List.Append | include/list.h:358-360 | on success the items are old + [item]; on allocation failure nothing changes |
| GrowableList.List.Prepend | include/list.h:361-363 | on success the items are [item] + old; on allocation failure nothing changes |
| GrowableList.List.PopBack | include/list.h:364-369 | on a non-empty list returns the last item and removes it; on an empty one fails, keeps the output and the list |
| GrowableList.List.PopFront | include/list.h:370-375 | on a non-empty list returns the first item and removes it; on an empty one fails, keeps the output and the list |
| AsWritten.FindFrom | include/list.h:141-145 | the find loop as written, with p_nth decremented (and wrapping at 0) on every step that does not answer; an answer is a position of x |
| AsWritten.Find | include/list.h:140-147 | find as written answers only positions that hold x |
| AsWritten.FindFromOnlyAtNth | include/list.h:141-145 | after i steps p_nth is nth - i mod 2^32, so the loop answers nth if x is there and fails otherwise |
| AsWritten.FindOnlyAtNth | include/list.h:140-147 | find as written returns index nth if items[nth] == x and fails otherwise, however often x occurs |
| AsWritten.FindTestsDisagree | test/test_list.c:156-169 | on [1,2,3,4,5,2] find as written fails for the first 3 (at index 2) and answers 1 for the second 2 (at index 5) |
| AsWritten.Erase | include/list.h:351-357 | erase as written: OutOfRange exactly when index >= length (the check at list.h:352); otherwise ReadsBeforeBuffer when the loop reaches items[-1], or Erased with the first length - 1 slots |
| AsWritten.EraseShift | include/list.h:353-354 | the erase loop as written keeps the buffer's size while it runs and reports reading items[-1] |
| AsWritten.ShiftReadsBeforeBuffer | include/list.h:353-354 | the downward loop started below length - 1 always reaches i = 0 and reads items[-1] |
| AsWritten.EraseWorksOnlyAtEnd | include/list.h:351-357 | erase as written reads before the buffer for every index but the last, and removes the last item correctly |
| AsWritten.EraseTestReadsBeforeBuffer | test/test_list.c:244-256 | erasing index 3 of [1,2,3,4,5,2] as written reads before the buffer, where [1,2,3,5,2] is expected |
| AsWritten.PopBack | include/list.h:364-369 | pop_back as written: reads past the allocation exactly when the buffer is full or none is owned (the read of items[length] at list.h:365); otherwise reports erase(length)'s flag, which can be success only on a non-empty list |
| AsWritten.PopBackAlwaysFails | include/list.h:364-369 | pop_back as written never reports success: with room past the items it fails because erase(length) is always out of range, and otherwise it reads past the allocation |
| AsWritten.PopFrontReadsBeforeBuffer | include/list.h:370-375 | pop_front as written calls erase(0), which reads items[-1] on every list of two or more items |
| AsWritten.PopFrontTestReadsBeforeBuffer | test/test_list.c:356-366 | popping the front of [25,1,2,3,4,5,2] as written reads before the buffer, where [1,2,3,4,5,2] is expected |
| ListScenarios.AppendRun | include/list.h:358-360 | n appends to a new list leave the items 0..n-1 in order and the capacity AppendCapacity(n) |

## Findings

| source | as written | input that shows it | evidently intended | confidence | as-written member | corrected member |
|---|---|---|---|---|---|---|
| include/list.h:140-147 | `p_nth--` runs on every item that is not an answer, so `p_nth` reaches 0 only at index nth | [1,2,3,4,5,2]: find(3, nth 0) fails, find(2, nth 1) gives 1 | the first 3 at index 2, the second 2 at index 5 (test/test_list.c:156-165) | high (not executed) | AsWritten.FindOnlyAtNth | GrowableList.List.Find |
| include/list.h:351-357 | the shift loop runs `i--` and copies `items[i-1]` into `items[i]`, so it reaches `items[-1]` for every index but the last | [1,2,3,4,5,2], erase(3) | [1,2,3,5,2] (include/list.h:233, test/test_list.c:253-254) | high (not executed) | AsWritten.EraseWorksOnlyAtEnd | GrowableList.List.Erase |
| include/list.h:364-369 | reads `items[length]` and calls `erase(length)`, which is always out of range | [1,2,3,4,5,2], pop_back | returns 2, leaves [1,2,3,4,5] (test/test_list.c:337-338) | high (not executed) | AsWritten.PopBackAlwaysFails | GrowableList.List.PopBack |
| include/list.h:370-375 | calls `erase(0)`, whose shift loop as written reads `items[-1]` on any list of two or more items | [25,1,2,3,4,5,2], pop_front | returns 25, leaves [1,2,3,4,5,2] (test/test_list.c:365-366) | high (not executed) | AsWritten.PopFrontReadsBeforeBuffer | GrowableList.List.PopFront |

## Left out

- `list_uint` is 32 bits wide. The model uses unbounded naturals for
  capacities, lengths and indices, so the wrap-around of
  `new_capacity *= 2` and `length + 1` (include/list.h:324, 344) is not
  modelled. The as-written `find` alone models `p_nth` wrapping, because
  the finding depends on it.
- `realloc`, `memcpy` and `sizeof` work on bytes. The model reallocates as
  a fresh array with the old buffer copied into it, copies items one
  element at a time, and models allocation failure as the `allocSucceeds`
  parameter.
- GrowableList.List.MakeSpace: its contract does not say that the slots
  between `length` and the old capacity are copied, although the body
  copies them. Those slots hold no items.
- `ID_list_free` and `ID_list_free_items` (include/list.h:315-321) release
  memory. Dafny has no explicit deallocation, so they are not modelled.
  `ID_list_new` is the constructor. Its `calloc` failure (a NULL handle)
  is not modelled.
- In `from_array`, if the source array is the list's own buffer, C reads
  freed memory after `realloc`. The model keeps the old array alive, so
  this case is not captured.
- `get` accepts a NULL `r_item` and then writes nothing. The model always
  returns the item; a caller that ignores it gets the same behaviour.
- Token pasting and `mp_keyword` in the macros become the type parameter
  `T`. `T` must support equality (`find`, `equal`) and have a default
  value, standing for the unspecified contents of fresh slots.
- The pass/fail reporter of `include/test.h` is console output and is
  not modelled.
