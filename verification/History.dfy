/** Sessions, subscriptions and channel activity read off the requests made so far, without any state. */
module History {
  import opened Types
  import opened Channels
  import opened Parameters
  import opened Commands
  import opened StaleFlush

  predicate Asks(e: Event, command: Command, client: string) {
    e.Request? && e.command == command && e.client == client
  }

  /** Some event set it, judged by what came before, and no later event unset it. */
  ghost predicate Since(es: seq<Event>, on: (seq<Event>, Event) -> bool, off: Event -> bool) {
    exists i :: 0 <= i < |es| && on(es[..i], es[i]) && forall j :: i < j < |es| ==> !off(es[j])
  }

  lemma SinceStep(es: seq<Event>, e: Event, on: (seq<Event>, Event) -> bool, off: Event -> bool)
    ensures Since(es + [e], on, off) <==> on(es, e) || (Since(es, on, off) && !off(e))
  {
    var all := es + [e];
    assert all[..|es|] == es && all[|es|] == e;
    if Since(es, on, off) && !off(e) {
      var i :| 0 <= i < |es| && on(es[..i], es[i]) && forall j :: i < j < |es| ==> !off(es[j]);
      assert all[..i] == es[..i] && all[i] == es[i];
    }
    if Since(all, on, off) && !on(es, e) {
      var i :| 0 <= i < |all| && on(all[..i], all[i]) && forall j :: i < j < |all| ==> !off(all[j]);
      assert all[..i] == es[..i] && all[i] == es[i];
      assert forall j :: i < j < |es| ==> es[j] == all[j];
    }
  }

  /** The client has connected and not disconnected since. */
  ghost predicate Connected(es: seq<Event>, c: string) { Since(es, Connects(c), Leaves(c)) }

  ghost function Connects(c: string): (seq<Event>, Event) -> bool { (before, e) => Asks(e, ToConnect, c) }
  ghost function Leaves(c: string): Event -> bool { e => Asks(e, ToDisconnect, c) }

  /** The client asked for the type while it was connected and has neither stopped it nor left since. */
  ghost predicate Subscribed(es: seq<Event>, c: string, t: DataType) { Since(es, Starts(c, t), Ends(c, t)) }

  ghost function Starts(c: string, t: DataType): (seq<Event>, Event) -> bool {
    (before, e) => Asks(e, ToStart, c) && t in Expand(e.body) && Connected(before, c)
  }

  ghost function Ends(c: string, t: DataType): Event -> bool {
    e => Asks(e, ToDisconnect, c) || (Asks(e, ToStop, c) && t in Expand(e.body))
  }

  /** Somebody, connected or not, has activated the type, and nobody has deactivated it since. */
  ghost predicate ForcedOn(es: seq<Event>, t: DataType) { Since(es, Activates(t), Deactivates(t)) }

  predicate Sets(e: Event, command: Command, t: DataType) {
    e.Request? && e.command == command && NamedType(e.body) == Type(t)
  }

  ghost function Activates(t: DataType): (seq<Event>, Event) -> bool { (before, e) => Sets(e, ToActivate, t) }
  ghost function Deactivates(t: DataType): Event -> bool { e => Sets(e, ToDeactivate, t) }

  // ---------------------------------------------------------------------------
  // The same steps on the state

  lemma {:induction false} ReplayAppend(s: Service, es: seq<Event>, e: Event)
    ensures Replay(s, es + [e]) == Next(Replay(s, es), e)
    decreases |es|
  {
    if es == [] {
      assert es + [e] == [e] && [e][1..] == [];
      assert Replay(Next(s, e), []) == Next(s, e);
    } else {
      assert (es + [e])[0] == es[0] && (es + [e])[1..] == es[1..] + [e];
      ReplayAppend(Next(s, es[0]), es[1..], e);
    }
  }

  lemma SessionStep(s: Service, e: Event, c: string)
    ensures c in Next(s, e).sessions <==> Asks(e, ToConnect, c) || (c in s.sessions && !Asks(e, ToDisconnect, c))
  {
  }

  predicate MayChange(e: Event, client: string) {
    Asks(e, ToDisconnect, client) || Asks(e, ToStart, client) || Asks(e, ToStop, client)
  }

  lemma OthersKeepSubscriptions(s: Service, e: Event, c: string)
    requires !MayChange(e, c)
    ensures Subs(Next(s, e).registry, c) == Subs(s.registry, c)
  {
  }

  lemma OwnRequestTakesEffect(s: Service, e: Event, c: string)
    requires SessionsCover(s) && MayChange(e, c)
    ensures Subs(Next(s, e).registry, c) ==
            match e.command
            case ToStart => if c in s.sessions then Subs(s.registry, c) + TypeSet(Expand(e.body)) else Subs(s.registry, c)
            case ToStop => Subs(s.registry, c) - TypeSet(Expand(e.body))
            case _ => {}
  {
  }

  lemma SubscriptionStep(s: Service, e: Event, c: string, t: DataType)
    requires SessionsCover(s)
    ensures var starts := Asks(e, ToStart, c) && t in Expand(e.body) && c in s.sessions;
            t in Subs(Next(s, e).registry, c) <==> starts || (t in Subs(s.registry, c) && !Ends(c, t)(e))
  {
    if MayChange(e, c) { OwnRequestTakesEffect(s, e, c); } else { OthersKeepSubscriptions(s, e, c); }
  }

  lemma OthersKeepForce(s: Service, e: Event)
    requires e.Request? ==> e.command != ToActivate && e.command != ToDeactivate
    ensures Next(s, e).registry.forced == s.registry.forced
  {
  }

  lemma ForceStep(s: Service, e: Event, t: DataType)
    ensures t in Next(s, e).registry.forced
            <==> Sets(e, ToActivate, t) || (t in s.registry.forced && !Sets(e, ToDeactivate, t))
  {
    if !e.Request? || (e.command != ToActivate && e.command != ToDeactivate) { OthersKeepForce(s, e); }
  }

  /** The state says about the client and the type what the requests say. */
  ghost predicate Decided(s: Service, es: seq<Event>, c: string, t: DataType) {
    && (c in s.sessions <==> Connected(es, c))
    && (t in Subs(s.registry, c) <==> Subscribed(es, c, t))
    && (t in s.registry.forced <==> ForcedOn(es, t))
  }

  lemma ConnectedDecided(s: Service, es: seq<Event>, e: Event, c: string)
    requires c in s.sessions <==> Connected(es, c)
    ensures c in Next(s, e).sessions <==> Connected(es + [e], c)
  {
    SessionStep(s, e, c);
    SinceStep(es, e, Connects(c), Leaves(c));
  }

  lemma SubscriptionDecided(s: Service, es: seq<Event>, e: Event, c: string, t: DataType)
    requires SessionsCover(s) && (c in s.sessions <==> Connected(es, c)) && (t in Subs(s.registry, c) <==> Subscribed(es, c, t))
    ensures t in Subs(Next(s, e).registry, c) <==> Subscribed(es + [e], c, t)
  {
    SubscriptionStep(s, e, c, t);
    SinceStep(es, e, Starts(c, t), Ends(c, t));
  }

  lemma ForceDecided(s: Service, es: seq<Event>, e: Event, t: DataType)
    requires t in s.registry.forced <==> ForcedOn(es, t)
    ensures t in Next(s, e).registry.forced <==> ForcedOn(es + [e], t)
  {
    ForceStep(s, e, t);
    SinceStep(es, e, Activates(t), Deactivates(t));
  }

  lemma DecidedStep(s: Service, es: seq<Event>, e: Event, c: string, t: DataType)
    requires SessionsCover(s) && Decided(s, es, c, t)
    ensures Decided(Next(s, e), es + [e], c, t)
  {
    ConnectedDecided(s, es, e, c);
    SubscriptionDecided(s, es, e, c, t);
    ForceDecided(s, es, e, t);
  }

  /** After every history, who is connected, who is subscribed to what and what is forced is exactly what
      the requests say. */
  lemma {:induction false} RequestsDecide(capacity: nat, params: map<string, Parameter>, es: seq<Event>, c: string, t: DataType)
    ensures Decided(Replay(Fresh(capacity, params), es), es, c, t)
    decreases |es|
  {
    if es != [] {
      var init, last := es[..|es| - 1], es[|es| - 1];
      assert es == init + [last];
      RequestsDecide(capacity, params, init, c, t);
      EveryHistoryIsFlushed(capacity, params, init);
      ReplayAppend(Fresh(capacity, params), init, last);
      DecidedStep(Replay(Fresh(capacity, params), init), init, last, c, t);
    }
  }

  /** The capture loop produces a type exactly when it is forced or some connected client asked for it. */
  lemma ActivityDecided(capacity: nat, params: map<string, Parameter>, es: seq<Event>, t: DataType)
    ensures Active(Replay(Fresh(capacity, params), es).registry, t) <==> ForcedOn(es, t) || exists c :: Subscribed(es, c, t)
  {
    var r := Replay(Fresh(capacity, params), es).registry;
    RequestsDecide(capacity, params, es, "", t);
    forall c
      ensures c in r.clients && t in r.clients[c] <==> Subscribed(es, c, t)
    {
      RequestsDecide(capacity, params, es, c, t);
    }
  }

  /** Every history changes parameters only as some sequence of validated changes does. */
  lemma {:induction false} ParametersEvolve(capacity: nat, params: map<string, Parameter>, es: seq<Event>) returns (changes: seq<Change>)
    ensures Replay(Fresh(capacity, params), es).params == AssignAll(params, changes)
    ensures Evolved(params, Replay(Fresh(capacity, params), es).params)
    decreases |es|
  {
    changes := [];
    if es != [] {
      var init, last := es[..|es| - 1], es[|es| - 1];
      assert es == init + [last];
      changes := ParametersEvolve(capacity, params, init);
      ReplayAppend(Fresh(capacity, params), init, last);
      var s := Replay(Fresh(capacity, params), init);
      var change := ParameterStep(s, last);
      if change.Some? {
        assert (changes + [change.value])[..|changes|] == changes;
        changes := changes + [change.value];
      }
    }
    ChangesEvolve(params, changes);
  }

  lemma ParameterStep(s: Service, e: Event) returns (change: Option<Change>)
    ensures Next(s, e).params == match change case None => s.params case Some(c) => Assign(s.params, c.name, c.value)
  {
    change := if e.Request? && e.command == SetParameter then Requested(s.params, e.body) else None;
  }
}
