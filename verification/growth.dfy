/** The growth policy of the list's buffer: the capacity that make_space
    asks the allocator for. Capacities are unbounded naturals here; the
    source's 32-bit `list_uint` is not modelled. */
module Growth {

  /** LIST_INIT_ITEM_COUNT: the capacity of the first buffer. */
  const InitItemCount: nat := 20

  function Pow2(k: nat): (p: nat)
    ensures p >= 1
  {
    if k == 0 then 1 else 2 * Pow2(k - 1)
  }

  /** `c` doubled `k` times, c * 2^k, in the order the loop of make_space
      doubles. */
  function Doubled(c: nat, k: nat): (r: nat)
    ensures c <= r
    decreases k
  {
    if k == 0 then c else Doubled(2 * c, k - 1)
  }

  /** The capacity make_space starts doubling from: the current one, or
      InitItemCount when no buffer is owned yet. */
  function Start(capacity: nat): (s: nat)
    ensures s > 0 && s >= capacity
    ensures capacity == 0 ==> s == InitItemCount
  {
    if capacity != 0 then capacity else InitItemCount
  }

  /** The number of doublings of `c` make_space performs before `c` is at
      least `need`: the least k with need <= c * 2^k. */
  function Doublings(c: nat, need: nat): (k: nat)
    requires c > 0
    ensures need <= Doubled(c, k)
    ensures k > 0 ==> Doubled(c, k - 1) < need
    decreases if c < need then need - c else 0
  {
    if need <= c then 0 else Doublings(2 * c, need) + 1
  }

  /** The doubling loop of make_space from a working capacity `c`: the
      result holds `need`, is never below `c`, and is `c` itself or less
      than twice the need, since the last doubling was necessary. */
  function Grow(c: nat, need: nat): (r: nat)
    requires c > 0
    ensures need <= r && c <= r
    ensures r == c || r < 2 * need
    decreases if c < need then need - c else 0
  {
    if need <= c then c else Grow(2 * c, need)
  }

  /** The capacity a successful make_space(capacity, need) leaves. */
  function GrownCapacity(capacity: nat, need: nat): (r: nat)
    ensures need <= r && capacity <= r
    ensures capacity == 0 ==> InitItemCount <= r
    ensures r == Start(capacity) || r < 2 * need
  {
    Grow(Start(capacity), need)
  }

  /** The loop stops after Doublings(c, need) doublings. */
  lemma {:induction false} GrowDoubles(c: nat, need: nat)
    requires c > 0
    ensures Grow(c, need) == Doubled(c, Doublings(c, need))
    decreases if c < need then need - c else 0
  {
    if need > c {
      GrowDoubles(2 * c, need);
    }
  }

  lemma {:induction false} DoubledStep(c: nat, k: nat)
    ensures Doubled(c, k + 1) == 2 * Doubled(c, k)
    decreases k
  {
    if k > 0 {
      DoubledStep(2 * c, k - 1);
    }
  }

  /** More doublings never give less: with GrowDoubles and Doublings'
      bounds, the count the loop performs is the least sufficient one. */
  lemma {:induction false} DoubledMono(c: nat, j: nat, k: nat)
    requires j <= k
    ensures Doubled(c, j) <= Doubled(c, k)
    decreases k - j
  {
    if j < k {
      DoubledMono(c, j, k - 1);
      DoubledStep(c, k - 1);
    }
  }

  /** Every k whose doubling holds `need` is at least the count the loop
      performs. */
  lemma {:induction false} DoublingsLeast(c: nat, need: nat, k: nat)
    requires c > 0 && need <= Doubled(c, k)
    ensures Doublings(c, need) <= k
  {
    var d := Doublings(c, need);
    if d > k {
      DoubledMono(c, k, d - 1);
    }
  }

  /** Doubling k times multiplies by 2^k. */
  lemma {:induction false} DoubledIsPowerMultiple(c: nat, k: nat)
    ensures Doubled(c, k) == c * Pow2(k)
    decreases k
  {
    if k > 0 {
      DoubledIsPowerMultiple(c, k - 1);
      DoubledStep(c, k - 1);
      assert c * Pow2(k) == 2 * (c * Pow2(k - 1));
    }
  }

  /** Only one k has need <= c * 2^k and, for k > 0, c * 2^(k-1) < need. */
  lemma {:induction false} DoublingsUnique(c: nat, need: nat, k: nat)
    requires c > 0
    requires need <= Doubled(c, k)
    requires k == 0 || Doubled(c, k - 1) < need
    ensures Doublings(c, need) == k
    decreases k
  {
    if need > c {
      DoublingsUnique(2 * c, need, k - 1);
    }
  }

  /** Growth is geometric and minimal: make_space leaves start * 2^k for
      the least k that holds the need, with start = 20 from no buffer and
      the old capacity otherwise. */
  lemma {:induction false} GrownCapacityIsLeastDoubling(capacity: nat, need: nat, k: nat)
    requires need <= Doubled(Start(capacity), k)
    requires k == 0 || Doubled(Start(capacity), k - 1) < need
    ensures GrownCapacity(capacity, need) == Start(capacity) * Pow2(k)
  {
    DoublingsUnique(Start(capacity), need, k);
    GrowDoubles(Start(capacity), need);
    DoubledIsPowerMultiple(Start(capacity), k);
  }

  /** make_space with room to spare leaves a non-zero capacity alone. */
  lemma {:induction false} NoGrowthWithRoom(capacity: nat, need: nat)
    requires 0 < capacity && need <= capacity
    ensures GrownCapacity(capacity, need) == capacity
  {
    GrownCapacityIsLeastDoubling(capacity, need, 0);
  }

  /** Appending to a full buffer doubles it. */
  lemma {:induction false} FullBufferDoubles(capacity: nat)
    requires 0 < capacity
    ensures GrownCapacity(capacity, capacity + 1) == 2 * capacity
  {
    GrownCapacityIsLeastDoubling(capacity, capacity + 1, 1);
  }

  /** The first buffer holds InitItemCount slots unless more are needed. */
  lemma {:induction false} FirstBuffer(need: nat)
    requires need <= InitItemCount
    ensures GrownCapacity(0, need) == InitItemCount
  {
    GrownCapacityIsLeastDoubling(0, need, 0);
  }

  /** The capacity after `n` successful appends to a list that starts with
      no buffer: each append asks make_space for length + 1 slots. */
  function AppendCapacity(n: nat): (c: nat)
    ensures n <= c
  {
    if n == 0 then 0 else GrownCapacity(AppendCapacity(n - 1), n)
  }

  /** How many of those `n` appends changed the capacity. */
  function Growths(n: nat): (g: nat)
  {
    if n == 0 then 0
    else Growths(n - 1) + (if AppendCapacity(n) != AppendCapacity(n - 1) then 1 else 0)
  }

  /** After n appends the capacity is InitItemCount doubled g - 1 times for
      g capacity changes, and the capacity before the last change was
      already below n: InitItemCount * 2^(g-2) < n, so g is logarithmic
      in n. */
  lemma {:induction false} AppendGrowthIsLogarithmic(n: nat)
    requires n > 0
    ensures Growths(n) >= 1
    ensures AppendCapacity(n) == Doubled(InitItemCount, Growths(n) - 1)
    ensures Growths(n) >= 2 ==> Doubled(InitItemCount, Growths(n) - 2) < n
  {
    if n == 1 {
      FirstBuffer(1);
    } else {
      AppendGrowthIsLogarithmic(n - 1);
      var c := AppendCapacity(n - 1);
      var g := Growths(n - 1);
      if n <= c {
        NoGrowthWithRoom(c, n);
      } else {
        FullBufferDoubles(c);
        DoubledStep(InitItemCount, g - 1);
      }
    }
  }
}
