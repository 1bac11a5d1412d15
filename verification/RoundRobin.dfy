/** The round-robin cursor over the loaded stereo pairs. */
module RoundRobin {
  import opened Types
  import opened Counter64
  import opened StereoPairs

  class SimDataSource {
    var pairs: seq<StereoPair>
    var cursor: Word

    constructor (pairs: seq<StereoPair>)
      ensures this.pairs == pairs && cursor == 0
    {
      this.pairs, cursor := pairs, 0;
    }

    /** The cursor moves only when there is a pair to return. */
    method NextStereo() returns (out: Option<StereoPair>)
      modifies `cursor
      ensures pairs == [] ==> out == None && cursor == old(cursor)
      ensures pairs != [] ==> out == Some(pairs[old(cursor) % |pairs|]) && cursor == Wrap(old(cursor) + 1)
    {
      if pairs == [] {
        return None;
      }
      var idx := cursor % |pairs|;
      cursor := Wrap(cursor + 1);
      out := Some(pairs[idx]);
    }

    /** `count` calls in a row: the k-th returns the pair of turn k. */
    method Take(count: nat) returns (out: seq<StereoPair>)
      requires pairs != []
      modifies `cursor
      ensures |out| == count && cursor == Wrap(old(cursor) + count)
      ensures forall k :: 0 <= k < count ==> out[k] == pairs[Turn(old(cursor), k, |pairs|)]
    {
      out := [];
      var k := 0;
      while k < count
        invariant 0 <= k <= count && |out| == k && cursor == Wrap(old(cursor) + k)
        invariant forall j :: 0 <= j < k ==> out[j] == pairs[Turn(old(cursor), j, |pairs|)]
      {
        var p := NextStereo();
        WrapNext(old(cursor) + k);
        out := out + [p.value];
        k := k + 1;
      }
    }
  }

  /** The pair that the k-th call from a given cursor position returns. */
  function Turn(start: nat, k: nat, n: nat): (i: nat)
    requires 0 < n
    ensures i < n
  {
    SlotOf(start + k, n)
  }

  /** How often pair i is returned in `count` calls. */
  function Visits(start: nat, count: nat, i: nat, n: nat): nat
    requires 0 < n
  {
    if count == 0 then 0 else Visits(start, count - 1, i, n) + (if Turn(start, count - 1, n) == i then 1 else 0)
  }

  /** The same with a cursor that never wraps. */
  function PlainVisits(start: nat, count: nat, i: nat, n: nat): nat
    requires 0 < n
  {
    if count == 0 then 0 else PlainVisits(start, count - 1, i, n) + (if (start + count - 1) % n == i then 1 else 0)
  }

  lemma {:induction false} PlainShift(start: nat, count: nat, i: nat, n: nat)
    requires 0 < n
    ensures PlainVisits(start, count + 1, i, n) == (if start % n == i then 1 else 0) + PlainVisits(start + 1, count, i, n)
  {
    if count > 0 { PlainShift(start, count - 1, i, n); }
  }

  lemma {:induction false} PlainBelow(count: nat, i: nat, n: nat)
    requires i < n && count <= n
    ensures PlainVisits(0, count, i, n) == if i < count then 1 else 0
  {
    if count > 0 {
      PlainBelow(count - 1, i, n);
      ModUnique(count - 1, count - 1, 0, n);
    }
  }

  /** Any n turns in a row return each pair once. */
  lemma {:induction false} PlainRound(start: nat, i: nat, n: nat)
    requires i < n
    ensures PlainVisits(start, n, i, n) == 1
  {
    if start == 0 {
      PlainBelow(n, i, n);
    } else {
      PlainRound(start - 1, i, n);
      PlainShift(start - 1, n - 1, i, n);
      SumMod(start - 1, n, n);
      ModUnique((start - 1) % n + n, (start - 1) % n, 1, n);
      assert start + n - 1 == start - 1 + n;
    }
  }

  lemma {:induction false} PlainSplit(start: nat, a: nat, b: nat, i: nat, n: nat)
    requires 0 < n
    ensures PlainVisits(start, a + b, i, n) == PlainVisits(start, a, i, n) + PlainVisits(start + a, b, i, n)
  {
    if b > 0 {
      PlainSplit(start, a, b - 1, i, n);
      assert start + a + b - 1 == start + a + (b - 1);
    }
  }

  lemma OneMoreRound(start: nat, before: nat, i: nat, n: nat)
    requires i < n
    ensures PlainVisits(start, before + n, i, n) == PlainVisits(start, before, i, n) + 1
  {
    PlainSplit(start, before, n, i, n);
    PlainRound(start + before, i, n);
  }

  lemma {:induction false} PlainRounds(start: nat, m: nat, i: nat, n: nat)
    requires i < n
    ensures PlainVisits(start, m * n, i, n) == m
  {
    if m > 0 {
      PlainRounds(start, m - 1, i, n);
      OneMoreRound(start, (m - 1) * n, i, n);
      assert m * n == (m - 1) * n + n;
    }
  }

  lemma {:induction false} VisitsPlain(start: nat, count: nat, i: nat, n: nat)
    requires 0 < n && (WORD % n == 0 || start + count <= WORD)
    ensures Visits(start, count, i, n) == PlainVisits(start, count, i, n)
  {
    if count > 0 {
      VisitsPlain(start, count - 1, i, n);
      SlotIgnoresWrap(start + count - 1, n);
    }
  }

  /** Short of the wrap, or with a number of pairs that divides 2^64, m rounds return each pair m times. */
  lemma RoundsAreFair(start: nat, m: nat, i: nat, n: nat)
    requires i < n && (WORD % n == 0 || start + m * n <= WORD)
    ensures Visits(start, m * n, i, n) == m
  {
    VisitsPlain(start, m * n, i, n);
    PlainRounds(start, m, i, n);
  }

  ghost predicate AlwaysFair(n: nat)
    requires 0 < n
  {
    forall start: nat, i: nat :: i < n ==> Visits(start, n, i, n) == 1
  }

  lemma {:induction false} VisitsAtLeast(start: nat, count: nat, i: nat, n: nat, j: nat, k: nat)
    requires 0 < n && j < k < count && Turn(start, j, n) == i && Turn(start, k, n) == i
    ensures Visits(start, count, i, n) >= 2
  {
    if k == count - 1 {
      VisitsOnce(start, k, i, n, j);
    } else {
      VisitsAtLeast(start, count - 1, i, n, j, k);
    }
  }

  lemma {:induction false} VisitsOnce(start: nat, count: nat, i: nat, n: nat, j: nat)
    requires 0 < n && j < count && Turn(start, j, n) == i
    ensures Visits(start, count, i, n) >= 1
  {
    if j < count - 1 { VisitsOnce(start, count - 1, i, n, j); }
  }

  /** Over the wrap of the cursor the rotation stays fair exactly when the number of pairs divides 2^64. */
  lemma FairPairCounts(n: nat)
    requires 0 < n < WORD
    ensures AlwaysFair(n) <==> 0x1_0000_0000_0000_0000 % n == 0
  {
    if WORD % n == 0 {
      forall start: nat, i: nat | i < n
        ensures Visits(start, n, i, n) == 1
      {
        VisitsPlain(start, n, i, n);
        PlainRound(start, i, n);
      }
    } else {
      ClashAtTheWrap(n);
      var r := WORD % n;
      VisitsAtLeast(WORD - r, n, 0, n, 0, r);
    }
  }
}
