/** Observation of local loop initialisation: acknowledgements, destroyed tokens and stops. */
module Startup {
  import opened Wrappers

  type Name = string

  datatype RuntimeStartup =
    | Starting(pending: seq<Name>)
    | Initialized
    | Stopped

  function Initially(pending: seq<Name>): RuntimeStartup {
    if pending == [] then Initialized else Starting(pending)
  }

  /** `retain(|entry| entry != name)`. */
  function Without(pending: seq<Name>, name: Name): seq<Name> {
    if pending == [] then []
    else (if pending[0] != name then [pending[0]] else []) + Without(pending[1..], name)
  }

  /** The closure an acknowledgement runs under the watch lock. */
  function Acknowledged(state: RuntimeStartup, name: Name): RuntimeStartup {
    if state.Starting? then Initially(Without(state.pending, name)) else state
  }

  class Initialization {
    var state: RuntimeStartup

    constructor (pending: seq<Name>)
      ensures state == Initially(pending)
    {
      state := if pending == [] then Initialized else Starting(pending);
    }

    method Stop()
      modifies this
      ensures state == Stopped
    {
      state := Stopped;
    }
  }

  /** A loop's token; acknowledging takes its name, and destroying it stops the runtime. */
  class LoopStartup {
    const initialization: Initialization
    var name: Option<Name>

    constructor (initialization: Initialization, name: Name)
      ensures this.initialization == initialization && this.name == Some(name)
    {
      this.initialization := initialization;
      this.name := Some(name);
    }

    method Acknowledge()
      modifies this, initialization
      ensures name == None
      ensures initialization.state
              == if old(name).Some? then Acknowledged(old(initialization.state), old(name).value)
                 else old(initialization.state)
    {
      var taken := name;
      name := None;
      if taken.None? || !initialization.state.Starting? {
        return;
      }
      var pending := Without(initialization.state.pending, taken.value);
      initialization.state := if pending == [] then Initialized else Starting(pending);
    }

    method Drop()
      modifies initialization
      ensures initialization.state == Stopped
    {
      initialization.Stop();
    }
  }

  // ---- every interleaving -----------------------------------------------------------------

  datatype Event =
    | Acknowledge(token: nat)
    | DropToken(token: nat)
    | Stop

  /** `names[t]` is the name token `t` still holds; a dropped token can do nothing more. */
  datatype System = System(state: RuntimeStartup, names: seq<Option<Name>>, dropped: set<nat>)

  function Boot(pending: seq<Name>, tokens: seq<Name>): System {
    System(Initially(pending), seq(|tokens|, i requires 0 <= i < |tokens| => Some(tokens[i])), {})
  }

  function Next(s: System, e: Event): System {
    match e
    case Acknowledge(t) =>
      if t >= |s.names| || t in s.dropped || s.names[t].None? then s
      else s.(state := Acknowledged(s.state, s.names[t].value), names := s.names[t := None])
    case DropToken(t) =>
      if t >= |s.names| || t in s.dropped then s
      else s.(state := Stopped, dropped := s.dropped + {t})
    case Stop => s.(state := Stopped)
  }

  function Run(s: System, events: seq<Event>): System {
    if events == [] then s else Next(Run(s, events[..|events| - 1]), events[|events| - 1])
  }

  /** Some stop was issued or some token was destroyed. */
  predicate HasStop(tokens: seq<Name>, events: seq<Event>) {
    exists i :: 0 <= i < |events| && Stops(tokens, events[i])
  }

  predicate Stops(tokens: seq<Name>, e: Event) {
    e.Stop? || (e.DropToken? && e.token < |tokens|)
  }

  /** Names acknowledged by the tokens that acknowledged. */
  function AcknowledgedNames(tokens: seq<Name>, events: seq<Event>): set<Name> {
    set i | 0 <= i < |events| && events[i].Acknowledge? && events[i].token < |tokens|
      :: tokens[events[i].token]
  }

  function WithoutAll(pending: seq<Name>, names: set<Name>): seq<Name> {
    if pending == [] then []
    else (if pending[0] !in names then [pending[0]] else []) + WithoutAll(pending[1..], names)
  }

  lemma {:induction false} WithoutMore(pending: seq<Name>, names: set<Name>, name: Name)
    ensures Without(WithoutAll(pending, names), name) == WithoutAll(pending, names + {name})
  {
    if pending != [] {
      WithoutMore(pending[1..], names, name);
      var rest := WithoutAll(pending[1..], names);
      if pending[0] !in names {
        assert ([pending[0]] + rest)[1..] == rest;
      } else {
        assert [] + rest == rest;
      }
    }
  }

  lemma {:induction false} WithoutNothing(pending: seq<Name>)
    ensures WithoutAll(pending, {}) == pending
  {
    if pending != [] {
      WithoutNothing(pending[1..]);
    }
  }

  lemma {:induction false} WithoutAllEmptyIff(pending: seq<Name>, names: set<Name>)
    ensures WithoutAll(pending, names) == [] <==> forall n :: n in pending ==> n in names
  {
    if pending != [] {
      WithoutAllEmptyIff(pending[1..], names);
      assert forall n :: n in pending <==> n == pending[0] || n in pending[1..];
    }
  }

  /** Tokens still hold their name exactly when they have not acknowledged. */
  lemma {:induction false} TokensAreSpentOnce(
      pending: seq<Name>, tokens: seq<Name>, events: seq<Event>)
    ensures var s := Run(Boot(pending, tokens), events);
            && |s.names| == |tokens|
            && (forall t :: 0 <= t < |tokens| ==> s.names[t].None? || s.names[t] == Some(tokens[t]))
            && (forall t :: 0 <= t < |tokens| && s.names[t].None? ==>
                  tokens[t] in AcknowledgedNames(tokens, events))
            && (s.dropped != {} ==> HasStop(tokens, events))
  {
    if events != [] {
      var init, last := events[..|events| - 1], events[|events| - 1];
      TokensAreSpentOnce(pending, tokens, init);
      forall n | n in AcknowledgedNames(tokens, init) ensures n in AcknowledgedNames(tokens, events) {
        var i :| 0 <= i < |init| && init[i].Acknowledge? && init[i].token < |tokens|
                 && tokens[init[i].token] == n;
        assert events[i] == init[i];
      }
      if HasStop(tokens, init) {
        var i :| 0 <= i < |init| && Stops(tokens, init[i]);
        assert Stops(tokens, events[i]);
      }
    }
  }

  function ClosedForm(pending: seq<Name>, stopped: bool, names: set<Name>): RuntimeStartup {
    if stopped then Stopped else Initially(WithoutAll(pending, names))
  }

  /**
   * The state after any interleaving, in closed form: stopped once anything stopped it, whatever
   * came before or after; otherwise exactly the names nobody acknowledged are pending.
   */
  lemma {:induction false} StartupClosedForm(
      pending: seq<Name>, tokens: seq<Name>, events: seq<Event>)
    ensures Run(Boot(pending, tokens), events).state
            == ClosedForm(pending, HasStop(tokens, events), AcknowledgedNames(tokens, events))
  {
    if events == [] {
      assert AcknowledgedNames(tokens, events) == {};
      WithoutNothing(pending);
    } else {
      var init, last := events[..|events| - 1], events[|events| - 1];
      StartupClosedForm(pending, tokens, init);
      TokensAreSpentOnce(pending, tokens, init);
      HasStopSnoc(tokens, events);
      AcknowledgedNamesSnoc(tokens, events);
      ClosedFormStep(pending, tokens, Run(Boot(pending, tokens), init), last,
                     HasStop(tokens, init), AcknowledgedNames(tokens, init));
    }
  }

  lemma ClosedFormStep(
      pending: seq<Name>, tokens: seq<Name>, s: System, e: Event, stopped: bool, names: set<Name>)
    requires s.state == ClosedForm(pending, stopped, names)
    requires |s.names| == |tokens| && (s.dropped != {} ==> stopped)
    requires forall t :: 0 <= t < |tokens| ==> s.names[t].None? || s.names[t] == Some(tokens[t])
    requires forall t :: 0 <= t < |tokens| && s.names[t].None? ==> tokens[t] in names
    ensures Next(s, e).state
            == ClosedForm(
                 pending, stopped || Stops(tokens, e),
                 names + if e.Acknowledge? && e.token < |tokens| then {tokens[e.token]} else {})
  {
    assert names + {} == names;
    if e.Acknowledge? && e.token < |tokens| && !stopped {
      var name := tokens[e.token];
      WithoutMore(pending, names, name);
      if s.names[e.token].None? {
        assert names + {name} == names;
      } else if s.state.Initialized? {
        assert Without([], name) == [];
      }
    }
  }

  lemma HasStopSnoc(tokens: seq<Name>, events: seq<Event>)
    requires events != []
    ensures HasStop(tokens, events) <==>
            HasStop(tokens, events[..|events| - 1]) || Stops(tokens, events[|events| - 1])
  {
    var init := events[..|events| - 1];
    if HasStop(tokens, init) {
      var i :| 0 <= i < |init| && Stops(tokens, init[i]);
      assert Stops(tokens, events[i]);
    }
  }

  lemma AcknowledgedNamesSnoc(tokens: seq<Name>, events: seq<Event>)
    requires events != []
    ensures var last := events[|events| - 1];
            AcknowledgedNames(tokens, events)
            == AcknowledgedNames(tokens, events[..|events| - 1])
               + if last.Acknowledge? && last.token < |tokens| then {tokens[last.token]} else {}
  {
    var init, last := events[..|events| - 1], events[|events| - 1];
    forall n | n in AcknowledgedNames(tokens, init) ensures n in AcknowledgedNames(tokens, events) {
      var i :| 0 <= i < |init| && init[i].Acknowledge? && init[i].token < |tokens|
               && tokens[init[i].token] == n;
      assert events[i] == init[i];
    }
    if last.Acknowledge? && last.token < |tokens| {
      assert events[|events| - 1].Acknowledge?;
    }
  }

  /** Initialised means: every pending loop acknowledged, and nothing stopped or was destroyed. */
  lemma InitializedIff(pending: seq<Name>, tokens: seq<Name>, events: seq<Event>)
    ensures Run(Boot(pending, tokens), events).state.Initialized? <==>
            !HasStop(tokens, events)
            && forall n :: n in pending ==> n in AcknowledgedNames(tokens, events)
  {
    StartupClosedForm(pending, tokens, events);
    WithoutAllEmptyIff(pending, AcknowledgedNames(tokens, events));
  }

  /** Stopped is absorbing. */
  lemma {:induction false} StoppedForever(s: System, events: seq<Event>)
    requires s.state.Stopped?
    ensures Run(s, events).state.Stopped?
  {
    if events != [] {
      StoppedForever(s, events[..|events| - 1]);
    }
  }

  // ---- publication by a tracked shutdown signal -------------------------------------------

  /**
   * Requests publish without a lock: first the startup stop, then the shutdown flag. `updated`
   * requests have done neither, `stopped` ones only the first.
   */
  datatype Publishing = Publishing(startup: System, updated: nat, stopped: nat, flag: bool)

  datatype PublishStep =
    | LoopEvent(e: Event)
    | Update
    | StopStartup
    | SendFlag

  function Publish(p: Publishing, step: PublishStep): Publishing {
    match step
    case LoopEvent(e) => p.(startup := Next(p.startup, e))
    case Update => p.(updated := p.updated + 1)
    case StopStartup =>
      if p.updated == 0 then p
      else p.(startup := Next(p.startup, Stop), updated := p.updated - 1, stopped := p.stopped + 1)
    case SendFlag =>
      if p.stopped == 0 then p else p.(stopped := p.stopped - 1, flag := true)
  }

  function PublishAll(p: Publishing, steps: seq<PublishStep>): Publishing {
    if steps == [] then p else Publish(PublishAll(p, steps[..|steps| - 1]), steps[|steps| - 1])
  }

  /** Whoever sees the shutdown flag of a tracked signal also sees startup stopped. */
  lemma {:induction false} FlagImpliesStopped(
      pending: seq<Name>, tokens: seq<Name>, steps: seq<PublishStep>)
    ensures var p := PublishAll(Publishing(Boot(pending, tokens), 0, 0, false), steps);
            p.flag || p.stopped > 0 ==> p.startup.state.Stopped?
  {
    if steps != [] {
      FlagImpliesStopped(pending, tokens, steps[..|steps| - 1]);
    }
  }
}
