/** The 64-bit counters of the ring buffer: they wrap, and their remainder picks the slot. */
module Counter64 {

  const WORD: nat := 0x1_0000_0000_0000_0000

  /** The value of a 64-bit counter. */
  type Word = w: nat | w < WORD

  function Wrap(n: nat): Word { n % WORD }

  /** Unsigned subtraction of two counters. */
  function Distance(h: Word, t: Word): Word {
    if t <= h then h - t else h + WORD - t
  }

  /** The slot the code computes for the position-th store: the counter has wrapped first. */
  function SlotOf(position: nat, capacity: nat): nat
    requires 0 < capacity
  {
    Wrap(position) % capacity
  }

  /** A counter difference below 2^64 survives any number of wrap-arounds. */
  lemma DistanceIsExact(h: nat, t: nat)
    requires t <= h < t + WORD
    ensures Distance(Wrap(h), Wrap(t)) == h - t
  {
  }

  lemma WrapNext(n: nat)
    ensures Wrap(Wrap(n) + 1) == Wrap(n + 1)
  {
  }

  lemma WrapInjective(a: nat, b: nat)
    requires a <= b < a + WORD && Wrap(a) == Wrap(b)
    ensures a == b
  {
    DistanceIsExact(b, a);
  }

  lemma MulAtLeast(k: int, m: int)
    requires 0 < m
    ensures k >= 1 ==> k * m >= m
    ensures k <= -1 ==> k * m <= -m
  {
    if k >= 1 {
      assert k * m == (k - 1) * m + m && (k - 1) * m >= 0;
    } else if k <= -1 {
      assert k * m == (k + 1) * m - m && (k + 1) * m <= 0;
    }
  }

  /** Uniqueness of quotient and remainder. */
  lemma ModUnique(a: int, b: int, q: int, m: nat)
    requires 0 < m && 0 <= b < m && a == q * m + b
    ensures a % m == b
  {
    var r, k := a % m, a / m;
    assert a == k * m + r;
    assert (k - q) * m == k * m - q * m;
    MulAtLeast(k - q, m);
  }

  lemma SumMod(a: nat, d: nat, m: nat)
    requires 0 < m
    ensures (a + d) % m == (a % m + d) % m
  {
    var x := a % m + d;
    assert a + d == (a / m + x / m) * m + x % m by {
      assert a == (a / m) * m + a % m;
      assert x == (x / m) * m + x % m;
      assert (a / m + x / m) * m == (a / m) * m + (x / m) * m;
    }
    ModUnique(a + d, x % m, a / m + x / m, m);
  }

  /** Fewer than `capacity` consecutive positions use different slots. */
  lemma ConsecutiveDiffer(a: nat, b: nat, m: nat)
    requires a < b < a + m
    ensures a % m != b % m
  {
    SumMod(a, b - a, m);
    var r, d := a % m, b - a;
    if r + d < m {
      ModUnique(r + d, r + d, 0, m);
    } else {
      ModUnique(r + d, r + d - m, 1, m);
    }
  }

  /** Equal slots are at least a whole capacity apart. */
  lemma SameSlotApart(a: nat, b: nat, m: nat)
    requires 0 < m && a < b && a % m == b % m
    ensures a + m <= b
  {
    if b < a + m { ConsecutiveDiffer(a, b, m); }
  }

  /** Wrapping does not disturb the slot when the capacity divides 2^64, or before the first wrap. */
  lemma SlotIgnoresWrap(position: nat, capacity: nat)
    requires 0 < capacity
    requires WORD % capacity == 0 || position < WORD
    ensures SlotOf(position, capacity) == position % capacity
  {
    if position >= WORD {
      var w, k := position % WORD, WORD / capacity;
      assert WORD == k * capacity;
      var n := position / WORD;
      assert position == n * WORD + w;
      assert w == (w / capacity) * capacity + w % capacity;
      assert n * WORD == (n * k) * capacity by { assert n * (k * capacity) == (n * k) * capacity; }
      assert position == (n * k + w / capacity) * capacity + w % capacity by {
        assert (n * k + w / capacity) * capacity == (n * k) * capacity + (w / capacity) * capacity;
      }
      ModUnique(position, w % capacity, n * k + w / capacity, capacity);
    }
  }

  /** No two positions that can be queued together share a slot. */
  ghost predicate SlotsNeverClash(capacity: nat)
    requires 0 < capacity
  {
    forall a: nat, b: nat :: a < b < a + capacity ==> SlotOf(a, capacity) != SlotOf(b, capacity)
  }

  lemma ClashAtTheWrap(capacity: nat)
    requires 0 < capacity < WORD && WORD % capacity != 0
    ensures var r := WORD % capacity;
            0 < r < capacity && r < WORD && SlotOf(WORD - r, capacity) == 0 == SlotOf(WORD, capacity)
  {
    var r := WORD % capacity;
    assert WORD - r == (WORD / capacity) * capacity;
    ModUnique(WORD - r, 0, WORD / capacity, capacity);
  }

  /** The capacities for which the ring survives the wrap of its counters: the divisors of 2^64. */
  lemma WrapSafeCapacities(capacity: nat)
    requires 0 < capacity < WORD
    ensures SlotsNeverClash(capacity) <==> 0x1_0000_0000_0000_0000 % capacity == 0
  {
    if WORD % capacity == 0 {
      forall a: nat, b: nat | a < b < a + capacity
        ensures SlotOf(a, capacity) != SlotOf(b, capacity)
      {
        SlotIgnoresWrap(a, capacity);
        SlotIgnoresWrap(b, capacity);
        ConsecutiveDiffer(a, b, capacity);
      }
    } else {
      ClashAtTheWrap(capacity);
      var a: nat := WORD - WORD % capacity;
      assert a < WORD < a + capacity;
    }
  }
}
