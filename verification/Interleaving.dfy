/** The order in which different clients' requests arrive does not show in the subscription state. */
module Interleaving {
  import opened Types
  import opened Channels

  datatype Op =
    | StartOp(client: string, types: seq<DataType>)
    | StopOp(client: string, types: seq<DataType>)
    | LeaveOp(client: string)

  function Do(r: Registry, op: Op): Registry {
    match op
    case StartOp(c, types) => Start(r, c, types)
    case StopOp(c, types) => Stop(r, c, types)
    case LeaveOp(c) => Disconnect(r, c)
  }

  function DoAll(r: Registry, ops: seq<Op>): Registry {
    if ops == [] then r else Do(DoAll(r, ops[..|ops| - 1]), ops[|ops| - 1])
  }

  /** The requests of one client, in the order it made them. */
  function Own(ops: seq<Op>, c: string): seq<Op> {
    if ops == [] then []
    else Own(ops[..|ops| - 1], c) + (if ops[|ops| - 1].client == c then [ops[|ops| - 1]] else [])
  }

  function View(r: Registry, c: string): Option<set<DataType>> {
    if c in r.clients then Some(r.clients[c]) else None
  }

  lemma DoAllAppend(r: Registry, ops: seq<Op>, op: Op)
    ensures DoAll(r, ops + [op]) == Do(DoAll(r, ops), op)
  {
    assert (ops + [op])[..|ops|] == ops;
  }

  lemma OwnLast(ops: seq<Op>, c: string)
    requires ops != []
    ensures var (init, last) := (ops[..|ops| - 1], ops[|ops| - 1]);
            Own(ops, c) == if last.client == c then Own(init, c) + [last] else Own(init, c)
  {
  }

  lemma ViewsDecide(x: Registry, y: Registry)
    requires forall c :: View(x, c) == View(y, c)
    ensures x.clients == y.clients
  {
    forall c
      ensures c in x.clients <==> c in y.clients
      ensures c in x.clients ==> x.clients[c] == y.clients[c]
    {
      assert View(x, c) == View(y, c);
    }
  }

  /** A client's subscriptions are those it would have if it were alone. */
  lemma {:induction false} OwnOpsDecide(r: Registry, ops: seq<Op>, c: string)
    ensures View(DoAll(r, ops), c) == View(DoAll(r, Own(ops, c)), c)
  {
    if ops != [] {
      var init, last := ops[..|ops| - 1], ops[|ops| - 1];
      OwnOpsDecide(r, init, c);
      OwnLast(ops, c);
      if last.client == c {
        DoAllAppend(r, Own(init, c), last);
      }
    }
  }

  lemma {:induction false} KnownIrrelevant(a: Registry, b: Registry, ops: seq<Op>)
    requires a.clients == b.clients
    ensures DoAll(a, ops).clients == DoAll(b, ops).clients
  {
    if ops != [] { KnownIrrelevant(a, b, ops[..|ops| - 1]); }
  }

  /** The request gives the type a subscriber set it was not in. */
  predicate Gains(r: Registry, op: Op, t: DataType) {
    op.StartOp? && t in op.types && t !in Subs(r, op.client)
  }

  predicate GainedBy(r: Registry, ops: seq<Op>, c: string, t: DataType) {
    t in DoAll(r.(known := {}), Own(ops, c)).known
  }

  lemma GainedStep(r: Registry, ops: seq<Op>, c: string, t: DataType)
    requires ops != []
    ensures var (init, last) := (ops[..|ops| - 1], ops[|ops| - 1]);
            GainedBy(r, ops, c, t) <==>
            GainedBy(r, init, c, t) || (c == last.client && Gains(DoAll(r, init), last, t))
  {
    var init, last := ops[..|ops| - 1], ops[|ops| - 1];
    var bare := r.(known := {});
    OwnLast(ops, c);
    if c == last.client {
      DoAllAppend(bare, Own(init, c), last);
      OwnOpsDecide(r, init, c);
      KnownIrrelevant(r, bare, Own(init, c));
      assert View(DoAll(r, init), c) == View(DoAll(bare, Own(init, c)), c);
    }
  }

  /** Which types ever got a state entry is also decided client by client. */
  lemma {:induction false} KnownByClient(r: Registry, ops: seq<Op>, t: DataType)
    ensures t in DoAll(r, ops).known <==> t in r.known || exists c :: GainedBy(r, ops, c, t)
  {
    if ops == [] {
      assert forall c :: Own(ops, c) == [];
    } else {
      var init, last := ops[..|ops| - 1], ops[|ops| - 1];
      KnownByClient(r, init, t);
      forall c
        ensures GainedBy(r, ops, c, t) <==>
                GainedBy(r, init, c, t) || (c == last.client && Gains(DoAll(r, init), last, t))
      {
        GainedStep(r, ops, c, t);
      }
      assert t in DoAll(r, ops).known <==> t in DoAll(r, init).known || Gains(DoAll(r, init), last, t);
      if Gains(DoAll(r, init), last, t) {
        assert GainedBy(r, ops, last.client, t);
      }
    }
  }

  lemma KnownAgree(r: Registry, a: seq<Op>, b: seq<Op>)
    requires forall c :: Own(a, c) == Own(b, c)
    ensures DoAll(r, a).known == DoAll(r, b).known
  {
    forall t
      ensures t in DoAll(r, a).known <==> t in DoAll(r, b).known
    {
      KnownByClient(r, a, t);
      KnownByClient(r, b, t);
      forall c
        ensures GainedBy(r, a, c, t) == GainedBy(r, b, c, t)
      {
      }
    }
  }

  /** Two interleavings of the same per-client request streams end in the same state: the same sets,
      the same state entries, the same count for every type. */
  lemma InterleavingsAgree(r: Registry, a: seq<Op>, b: seq<Op>)
    requires forall c :: Own(a, c) == Own(b, c)
    ensures DoAll(r, a) == DoAll(r, b)
    ensures forall t :: CountOf(DoAll(r, a).clients, t) == CountOf(DoAll(r, b).clients, t)
  {
    var (x, y) := (DoAll(r, a), DoAll(r, b));
    forall c
      ensures View(x, c) == View(y, c)
    {
      OwnOpsDecide(r, a, c);
      OwnOpsDecide(r, b, c);
    }
    ViewsDecide(x, y);
    KnownAgree(r, a, b);
    ForcedUntouched(r, a);
    ForcedUntouched(r, b);
  }

  lemma {:induction false} ForcedUntouched(r: Registry, ops: seq<Op>)
    ensures DoAll(r, ops).forced == r.forced
  {
    if ops != [] { ForcedUntouched(r, ops[..|ops| - 1]); }
  }

  /** For every count, leaving is the same as stopping every type. */
  lemma LeavingStopsEverything(r: Registry, c: string, types: seq<DataType>, t: DataType)
    requires forall u: DataType :: u in types
    ensures CountOf(Disconnect(r, c).clients, t) == CountOf(Stop(r, c, types).clients, t)
    ensures Active(Disconnect(r, c), t) <==> Active(Stop(r, c, types), t)
  {
    assert Holders(Disconnect(r, c).clients, t) == Holders(Stop(r, c, types).clients, t);
    CountPositive(Disconnect(r, c).clients, t);
    CountPositive(Stop(r, c, types).clients, t);
  }
}
