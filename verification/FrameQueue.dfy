/** ChannelFrameQueue as the object one thread at a time uses. */
module FrameQueue {
  import opened Types
  import opened Counter64

  /** The slot of the position-th frame, counting from the first push. */
  function Cell(pos: nat, capacity: nat): (i: nat)
    requires 0 < capacity
    ensures i < capacity
  {
    pos % capacity
  }

  /** Positions of one window of `capacity` consecutive positions have slots of their own. */
  lemma CellsDiffer(first: nat, p: nat, capacity: nat)
    requires first <= p < first + capacity
    ensures forall pos :: first <= pos < first + capacity && pos != p ==> Cell(pos, capacity) != Cell(p, capacity)
  {
    forall pos | first <= pos < first + capacity && pos != p
      ensures Cell(pos, capacity) != Cell(p, capacity)
    {
      if pos < p { ConsecutiveDiffer(pos, p, capacity); } else { ConsecutiveDiffer(p, pos, capacity); }
    }
  }

  lemma CellRepeats(pos: nat, capacity: nat)
    requires 0 < capacity
    ensures Cell(pos + capacity, capacity) == Cell(pos, capacity)
  {
    SumMod(pos, capacity, capacity);
    ModUnique(pos % capacity + capacity, pos % capacity, 1, capacity);
  }

  /** Every slot belongs to a position of the window. */
  lemma CellReached(first: nat, i: nat, capacity: nat) returns (pos: nat)
    requires i < capacity
    ensures first <= pos < first + capacity && Cell(pos, capacity) == i
  {
    var r := first % capacity;
    if r <= i {
      pos := first + (i - r);
      SumMod(first, i - r, capacity);
      ModUnique(i, i, 0, capacity);
    } else {
      pos := first + (i - r + capacity);
      SumMod(first, i - r + capacity, capacity);
      ModUnique(i + capacity, i, 1, capacity);
    }
  }

  /** The slots and the counter words hold exactly these frames, the oldest at position `first`. */
  ghost predicate Holds(slots: seq<Option<Frame>>, head: Word, tail: Word, first: nat, contents: seq<Frame>) {
    && 0 < |slots| < WORD && |contents| <= |slots|
    && tail == Wrap(first) && head == Wrap(first + |contents|)
    && (WORD % |slots| == 0 || first + |contents| <= WORD)
    && (forall pos :: first <= pos < first + |slots| ==>
          slots[Cell(pos, |slots|)] == if pos < first + |contents| then Some(contents[pos - first]) else None)
  }

  lemma PushHolds(slots: seq<Option<Frame>>, head: Word, tail: Word, first: nat, contents: seq<Frame>, frame: Frame)
    requires Holds(slots, head, tail, first, contents) && |contents| < |slots|
    requires WORD % |slots| == 0 || first + |contents| < WORD
    ensures Holds(slots[head % |slots| := Some(frame)], Wrap(head + 1), tail, first, contents + [frame])
  {
    var p := first + |contents|;
    SlotIgnoresWrap(p, |slots|);
    CellsDiffer(first, p, |slots|);
    WrapNext(p);
  }

  lemma PopHolds(slots: seq<Option<Frame>>, head: Word, tail: Word, first: nat, contents: seq<Frame>)
    requires Holds(slots, head, tail, first, contents) && contents != []
    ensures slots[tail % |slots|] == Some(contents[0])
    ensures Holds(slots[tail % |slots| := None], head, Wrap(tail + 1), first + 1, contents[1..])
  {
    SlotIgnoresWrap(first, |slots|);
    CellsDiffer(first, first, |slots|);
    CellRepeats(first, |slots|);
    WrapNext(first);
  }

  lemma EmptyHolds(slots: seq<Option<Frame>>, head: Word, tail: Word, first: nat)
    requires Holds(slots, head, tail, first, [])
    ensures forall i :: 0 <= i < |slots| ==> slots[i] == None
  {
    forall i | 0 <= i < |slots|
      ensures slots[i] == None
    {
      var pos := CellReached(first, i, |slots|);
    }
  }

  lemma DistanceShrinks(head: Word, tail: Word)
    requires head != tail
    ensures Distance(head, Wrap(tail + 1)) == Distance(head, tail) - 1
  {
  }

  class ChannelFrameQueue {
    const capacity: nat
    const buffer: array<Option<Frame>>
    var head: Word
    var tail: Word
    var pushed: Word
    var dropped: Word
    ghost var contents: seq<Frame>    // the queued frames, oldest first
    ghost var first: nat              // how many pops there have been: the position of contents[0]

    predicate WellFormed() {
      0 < capacity < WORD && buffer.Length == capacity
    }

    ghost predicate Valid()
      reads this, buffer
    {
      WellFormed() && Holds(buffer[..], head, tail, first, contents)
    }

    /** Another frame can be queued without an unsafe wrap: see RingWrap.OverwriteFreeCapacities. */
    ghost predicate CounterSafe()
      reads this
    {
      0 < capacity && (WORD % capacity == 0 || first + |contents| < WORD)
    }

    /** A capacity below one becomes one. Every slot starts empty. */
    constructor (requested: Word)
      ensures Valid() && fresh(buffer)
      ensures capacity == (if requested < 1 then 1 else requested)
      ensures contents == [] && first == 0 && pushed == 0 && dropped == 0
    {
      capacity := if requested < 1 then 1 else requested;
      buffer := new Option<Frame>[if requested < 1 then 1 else requested](_ => None);
      head, tail, pushed, dropped := 0, 0, 0, 0;
      contents, first := [], 0;
    }

    /** Writes the slot of the head counter and moves that counter on, or counts a drop and changes nothing
        else when the counters are a whole capacity apart. On a queue that holds its frames this appends
        the frame unless the queue is full; it still holds its frames afterwards, short of an unsafe wrap. */
    method TryPush(frame: Frame) returns (ok: bool)
      requires WellFormed()
      modifies this, buffer
      ensures ok <==> Distance(old(head), old(tail)) < capacity
      ensures buffer[..] == if ok then old(buffer[..])[old(head) % capacity := Some(frame)] else old(buffer[..])
      ensures head == (if ok then Wrap(old(head) + 1) else old(head)) && tail == old(tail)
      ensures pushed == if ok then Wrap(old(pushed) + 1) else old(pushed)
      ensures dropped == if ok then old(dropped) else Wrap(old(dropped) + 1)
      ensures first == old(first) && contents == if ok then old(contents) + [frame] else old(contents)
      ensures old(Valid()) ==> (ok <==> |old(contents)| < capacity)
      ensures old(Valid()) && (ok ==> old(CounterSafe())) ==> Valid()
    {
      var h, t := head, tail;
      ghost var slots := buffer[..];
      if Valid() { DistanceIsExact(first + |contents|, first); }
      if Distance(h, t) >= capacity {
        dropped := Wrap(dropped + 1);
        return false;
      }
      if Valid() && CounterSafe() { PushHolds(slots, h, t, first, contents, frame); }
      buffer[h % capacity] := Some(frame);
      assert buffer[..] == slots[h % capacity := Some(frame)];
      head := Wrap(h + 1);
      pushed := Wrap(pushed + 1);
      contents := contents + [frame];
      return true;
    }

    /** Moves the slot of the tail counter out, nulls it and moves that counter on, or returns false when the
        counters are equal. On a queue that holds its frames this takes the oldest one out. */
    method TryPop() returns (ok: bool, out: Option<Frame>)
      requires WellFormed()
      modifies this, buffer
      ensures ok <==> old(head) != old(tail)
      ensures out == if ok then old(buffer[..])[old(tail) % capacity] else None
      ensures buffer[..] == if ok then old(buffer[..])[old(tail) % capacity := None] else old(buffer[..])
      ensures tail == (if ok then Wrap(old(tail) + 1) else old(tail)) && head == old(head)
      ensures pushed == old(pushed) && dropped == old(dropped)
      ensures old(Valid()) ==> Valid() && (ok <==> old(contents) != [])
      ensures old(Valid()) && ok ==> out == Some(old(contents)[0]) && contents == old(contents)[1..] && first == old(first) + 1
      ensures !ok ==> contents == old(contents) && first == old(first)
    {
      var t, h := tail, head;
      ghost var slots := buffer[..];
      if Valid() { DistanceIsExact(first + |contents|, first); }
      if h == t {
        return false, None;
      }
      if Valid() { PopHolds(slots, h, t, first, contents); }
      out := buffer[t % capacity];
      buffer[t % capacity] := None;
      assert buffer[..] == slots[t % capacity := None];
      tail := Wrap(t + 1);
      contents := if contents == [] then [] else contents[1..];
      first := first + 1;
      ok := true;
    }

    method Empty() returns (r: bool)
      requires Valid()
      ensures r <==> contents == []
    {
      DistanceIsExact(first + |contents|, first);
      r := head == tail;
    }

    method Full() returns (r: bool)
      requires Valid()
      ensures r <==> |contents| == capacity
    {
      DistanceIsExact(first + |contents|, first);
      r := Distance(head, tail) >= capacity;
    }

    method Size() returns (n: nat)
      requires Valid()
      ensures n == |contents|
    {
      DistanceIsExact(first + |contents|, first);
      n := Distance(head, tail);
    }

    method ResetStats()
      requires Valid()
      modifies `pushed, `dropped
      ensures Valid() && pushed == 0 && dropped == 0
    {
      pushed, dropped := 0, 0;
    }

    /** Pops until the counters are equal. On a queue that holds its frames every slot is then null. */
    method Clear()
      requires WellFormed()
      modifies this, buffer
      ensures head == tail == old(head)
      ensures pushed == old(pushed) && dropped == old(dropped)
      ensures old(Valid()) ==> Valid() && contents == [] && first == old(first + |contents|)
      ensures old(Valid()) ==> forall i :: 0 <= i < capacity ==> buffer[i] == None
    {
      ghost var held := Valid();
      var ok, p := TryPop();
      while ok
        invariant head == old(head) && (!ok ==> head == tail)
        invariant pushed == old(pushed) && dropped == old(dropped)
        invariant held ==> Valid() && first + |contents| == old(first + |contents|) && (!ok ==> contents == [])
        decreases Distance(head, tail), ok
      {
        if head != tail { DistanceShrinks(head, tail); }
        ok, p := TryPop();
      }
      if held {
        EmptyHolds(buffer[..], head, tail, first);
        assert forall i :: 0 <= i < capacity ==> buffer[i] == buffer[..][i];
      }
    }
  }
}
