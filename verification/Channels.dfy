/** Who has subscribed to what: the plain relation, and the manager that caches a count per type. */
module Channels {
  import opened Types

  /** The plain model: per-client sets, the forced types, and the types ever given a state entry. */
  datatype Registry = Registry(clients: map<string, set<DataType>>, forced: set<DataType>, known: set<DataType>)

  function Subs(r: Registry, client: string): set<DataType> {
    if client in r.clients then r.clients[client] else {}
  }

  function TypeSet(types: seq<DataType>): set<DataType> { set t | t in types }

  function Start(r: Registry, client: string, types: seq<DataType>): Registry {
    r.(clients := r.clients[client := Subs(r, client) + TypeSet(types)],
       known := r.known + (TypeSet(types) - Subs(r, client)))
  }

  function Stop(r: Registry, client: string, types: seq<DataType>): Registry {
    if client !in r.clients then r
    else r.(clients := r.clients[client := r.clients[client] - TypeSet(types)])
  }

  function Disconnect(r: Registry, client: string): Registry {
    r.(clients := r.clients - {client})
  }

  function Activate(r: Registry, t: DataType): Registry {
    r.(forced := r.forced + {t}, known := r.known + {t})
  }

  function Deactivate(r: Registry, t: DataType): Registry {
    r.(forced := r.forced - {t}, known := r.known + {t})
  }

  function Holders(clients: map<string, set<DataType>>, t: DataType): set<string> {
    set c | c in clients && t in clients[c]
  }

  /** How many clients subscribe to the type. */
  function CountOf(clients: map<string, set<DataType>>, t: DataType): nat {
    |Holders(clients, t)|
  }

  predicate Active(r: Registry, t: DataType) {
    t in r.forced || exists c :: c in r.clients && t in r.clients[c]
  }

  predicate GroupActive(r: Registry, g: Group) {
    exists t :: t in Members(g) && Active(r, t)
  }

  predicate AnySubscriber(r: Registry) {
    exists c :: c in r.clients && r.clients[c] != {}
  }

  lemma HoldersAfter(clients: map<string, set<DataType>>, c: string, s: set<DataType>, t: DataType)
    ensures Holders(clients[c := s], t) == if t in s then Holders(clients, t) + {c} else Holders(clients, t) - {c}
  {
  }

  lemma CountAfter(clients: map<string, set<DataType>>, c: string, s: set<DataType>, t: DataType)
    ensures var was := c in clients && t in clients[c];
            CountOf(clients[c := s], t) == CountOf(clients, t) + (if t in s then 1 else 0) - (if was then 1 else 0)
  {
    HoldersAfter(clients, c, s, t);
    assert c in Holders(clients, t) <==> c in clients && t in clients[c];
  }

  lemma CountWithout(clients: map<string, set<DataType>>, c: string, t: DataType)
    ensures CountOf(clients - {c}, t) == CountOf(clients, t) - (if c in clients && t in clients[c] then 1 else 0)
  {
    assert Holders(clients - {c}, t) == Holders(clients, t) - {c};
    assert c in Holders(clients, t) <==> c in clients && t in clients[c];
  }

  lemma CountPositive(clients: map<string, set<DataType>>, t: DataType)
    ensures CountOf(clients, t) > 0 <==> exists c :: c in clients && t in clients[c]
  {
    if CountOf(clients, t) > 0 {
      var c :| c in Holders(clients, t);
    } else {
      assert Holders(clients, t) == {};
      assert forall c :: c in clients && t in clients[c] ==> c in Holders(clients, t);
    }
  }

  datatype Entry = Entry(subscribers: int, forced: bool)

  /** Every cached count is the true one, and a type without an entry has no subscriber. */
  ghost predicate Agree(states: map<DataType, Entry>, clients: map<string, set<DataType>>) {
    && (forall t :: t in states ==> states[t].subscribers == CountOf(clients, t))
    && (forall t :: t !in states ==> CountOf(clients, t) == 0)
  }

  function Forced(states: map<DataType, Entry>): set<DataType> {
    set t | t in states && states[t].forced
  }

  /** std::map::operator[]: an entry that is not there yet starts at zero. */
  function EntryOf(states: map<DataType, Entry>, t: DataType): Entry {
    if t in states then states[t] else Entry(0, false)
  }

  /** Counting one up when a client's set gains a type keeps the counts true. */
  lemma GainAgrees(states: map<DataType, Entry>, clients: map<string, set<DataType>>, client: string, t: DataType)
    requires Agree(states, clients) && client in clients && t !in clients[client]
    ensures var e := EntryOf(states, t);
            var states' := states[t := e.(subscribers := e.subscribers + 1)];
            Agree(states', clients[client := clients[client] + {t}]) && Forced(states') == Forced(states)
  {
    forall u { CountAfter(clients, client, clients[client] + {t}, u); }
  }

  /** The guards of the count-down never fail, and counting one down keeps the counts true. */
  lemma LossAgrees(states: map<DataType, Entry>, clients: map<string, set<DataType>>, client: string, t: DataType)
    requires Agree(states, clients) && client in clients && t in clients[client]
    ensures t in states && states[t].subscribers > 0
    ensures var states' := states[t := states[t].(subscribers := states[t].subscribers - 1)];
            Agree(states', clients[client := clients[client] - {t}]) && Forced(states') == Forced(states)
  {
    CountPositive(clients, t);
    forall u { CountAfter(clients, client, clients[client] - {t}, u); }
  }

  lemma EmptySetAgrees(states: map<DataType, Entry>, clients: map<string, set<DataType>>, client: string)
    requires Agree(states, clients) && client !in clients
    ensures Agree(states, clients[client := {}])
  {
    forall t { CountAfter(clients, client, {}, t); }
  }

  /** Force flags have no part in the counts. */
  lemma ForceAgrees(states: map<DataType, Entry>, clients: map<string, set<DataType>>, t: DataType, force: bool)
    requires Agree(states, clients)
    ensures var states' := states[t := EntryOf(states, t).(forced := force)];
            && Agree(states', clients)
            && states'.Keys == states.Keys + {t}
            && Forced(states') == if force then Forced(states) + {t} else Forced(states) - {t}
  {
  }

  /** What a status report says about one type. */
  datatype ChannelState = ChannelState(t: DataType, subscribers: int, activated: bool, forced: bool)

  function StateOf(r: Registry, t: DataType): ChannelState {
    ChannelState(t, CountOf(r.clients, t), Active(r, t), t in r.forced)
  }

  function States(r: Registry): set<ChannelState> { set t | t in r.known :: StateOf(r, t) }

  class ChannelManager {
    var states: map<DataType, Entry>
    var clients: map<string, set<DataType>>

    constructor ()
      ensures Valid() && Model() == Registry(map[], {}, {})
    {
      states, clients := map[], map[];
    }

    ghost predicate Valid()
      reads this
    {
      Agree(states, clients)
    }

    ghost function Model(): Registry
      reads this
    {
      Registry(clients, Forced(states), states.Keys)
    }

    method StartCapture(client: string, types: seq<DataType>)
      requires Valid()
      modifies this
      ensures Valid() && Model() == Start(old(Model()), client, types)
    {
      if client !in clients {
        EmptySetAgrees(states, clients, client);
        clients := clients[client := {}];
      }
      var i := 0;
      while i < |types|
        invariant 0 <= i <= |types| && client in clients && Valid()
        invariant clients == old(clients)[client := clients[client]]
        invariant clients[client] == Subs(old(Model()), client) + TypeSet(types[..i])
        invariant Forced(states) == Forced(old(states))
        invariant states.Keys == old(states).Keys + (TypeSet(types[..i]) - Subs(old(Model()), client))
      {
        var t := types[i];
        assert TypeSet(types[..i + 1]) == TypeSet(types[..i]) + {t};
        if t !in clients[client] {
          GainAgrees(states, clients, client, t);
          clients := clients[client := clients[client] + {t}];
          var e := EntryOf(states, t);
          states := states[t := e.(subscribers := e.subscribers + 1)];
        }
        i := i + 1;
      }
      assert types[..i] == types;
    }

    method StopCapture(client: string, types: seq<DataType>)
      requires Valid()
      modifies this
      ensures Valid() && Model() == Stop(old(Model()), client, types)
    {
      if client !in clients {
        return;
      }
      var i := 0;
      while i < |types|
        invariant 0 <= i <= |types| && client in clients && Valid()
        invariant clients == old(clients)[client := clients[client]]
        invariant clients[client] == old(clients)[client] - TypeSet(types[..i])
        invariant Forced(states) == Forced(old(states)) && states.Keys == old(states).Keys
      {
        var t := types[i];
        assert TypeSet(types[..i + 1]) == TypeSet(types[..i]) + {t};
        if t in clients[client] {
          LossAgrees(states, clients, client, t);
          clients := clients[client := clients[client] - {t}];
          if t in states && states[t].subscribers > 0 {
            states := states[t := states[t].(subscribers := states[t].subscribers - 1)];
          }
        }
        i := i + 1;
      }
      assert types[..i] == types;
    }

    /** Counts every type of the client down, in any order, then forgets the client. */
    method DisconnectClient(client: string) returns (known: bool)
      requires Valid()
      modifies this
      ensures Valid() && Model() == Disconnect(old(Model()), client)
      ensures known <==> client in old(clients)
    {
      if client !in clients {
        return false;
      }
      var rest := clients[client];
      while rest != {}
        invariant clients == old(clients) && rest <= clients[client]
        invariant states.Keys == old(states).Keys && Forced(states) == Forced(old(states))
        invariant forall t :: t in states ==>
          states[t].subscribers == CountOf(clients, t) - (if t in clients[client] - rest then 1 else 0)
      {
        var k :| k in rest;
        CountPositive(clients, k);
        if k in states && states[k].subscribers > 0 {
          states := states[k := states[k].(subscribers := states[k].subscribers - 1)];
        }
        rest := rest - {k};
      }
      forall t { CountWithout(clients, client, t); }
      clients := clients - {client};
      return true;
    }

    method ActivateChannel(t: DataType) returns (changed: bool)
      requires Valid()
      modifies this
      ensures Valid() && Model() == Activate(old(Model()), t)
      ensures changed <==> t !in old(Model()).forced
    {
      var e := EntryOf(states, t);
      ForceAgrees(states, clients, t, true);
      states := states[t := e.(forced := true)];
      changed := !e.forced;
    }

    method DeactivateChannel(t: DataType) returns (was: bool)
      requires Valid()
      modifies this
      ensures Valid() && Model() == Deactivate(old(Model()), t)
      ensures was <==> t in old(Model()).forced
    {
      var e := EntryOf(states, t);
      ForceAgrees(states, clients, t, false);
      states := states[t := e.(forced := false)];
      was := e.forced;
    }

    method IsActive(t: DataType) returns (r: bool)
      requires Valid()
      ensures r <==> Active(Model(), t)
    {
      CountPositive(clients, t);
      if t !in states {
        return false;
      }
      r := states[t].subscribers > 0 || states[t].forced;
    }

    method IsGroupActive(g: Group) returns (r: bool)
      requires Valid()
      ensures r <==> GroupActive(Model(), g)
    {
      var members := Members(g);
      var i := 0;
      while i < |members|
        invariant 0 <= i <= |members|
        invariant forall j :: 0 <= j < i ==> !Active(Model(), members[j])
      {
        var a := IsActive(members[i]);
        if a { return true; }
        i := i + 1;
      }
      r := false;
    }

    method HasSubscriber() returns (r: bool)
      requires Valid()
      ensures r <==> AnySubscriber(Model())
    {
      var rest := states.Keys;
      while rest != {}
        invariant rest <= states.Keys
        invariant forall t :: t in states && t !in rest ==> states[t].subscribers == 0
      {
        var k :| k in rest;
        if states[k].subscribers > 0 {
          CountPositive(clients, k);
          return true;
        }
        rest := rest - {k};
      }
      forall c | c in clients
        ensures clients[c] == {}
      {
        if clients[c] != {} {
          var t :| t in clients[c];
          CountPositive(clients, t);
        }
      }
      r := false;
    }

    method SubscriberCount(t: DataType) returns (n: int)
      requires Valid()
      ensures n == CountOf(clients, t)
    {
      n := if t in states then states[t].subscribers else 0;
    }

    /** One entry for each type that ever got a state, and the number of clients with an entry. */
    method StatusJson() returns (total: nat, channels: set<ChannelState>)
      requires Valid()
      ensures total == |Model().clients| && channels == States(Model())
    {
      channels := {};
      var rest := states.Keys;
      while rest != {}
        invariant rest <= states.Keys
        invariant channels == set t | t in states.Keys - rest :: StateOf(Model(), t)
      {
        var k :| k in rest;
        CountPositive(clients, k);
        ghost var before := rest;
        rest := rest - {k};
        assert states.Keys - rest == (states.Keys - before) + {k};
        var e := states[k];
        channels := channels + {ChannelState(k, e.subscribers, e.subscribers > 0 || e.forced, e.forced)};
      }
      total := |clients|;
    }
  }
}
