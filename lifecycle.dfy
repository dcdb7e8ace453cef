/**
 * The run-state machine of a gamey app: the transition table handed to the
 * state-machine library, and the effects of the five transition hooks
 * (one `stateChange` event each, and attaching or detaching the frame ticker).
 * The library that executes the table is not part of this model; only what the
 * table and the hooks determine is.
 */
module Lifecycle {

  datatype Option<T> = None | Some(value: T)

  /** The closed set of run-states; the machine starts in Lobby. */
  datatype RunState = Lobby | Playing | Paused

  /** The transition names of the table. */
  datatype Transition = Play | Pause | Quit | Unpause | End

  /** One row of the table: `name` moves any state in `from` to `to`. */
  datatype Rule = Rule(name: Transition, from: set<RunState>, to: RunState)

  const Initial: RunState := Lobby

  /** The transition table, row for row as the app declares it. */
  const Table: seq<Rule> := [
    Rule(Play, {Lobby}, Playing),
    Rule(Pause, {Playing}, Paused),
    Rule(Quit, {Paused}, Lobby),
    Rule(Unpause, {Paused}, Playing),
    Rule(End, {Playing, Paused}, Lobby)
  ]

  predicate Matches(r: Rule, s: RunState, t: Transition) {
    r.name == t && s in r.from
  }

  /** The target of the first row of `rules` that lets `t` fire from `s`, if any. */
  function Lookup(rules: seq<Rule>, s: RunState, t: Transition): (r: Option<RunState>)
    ensures r.None? <==> forall i :: 0 <= i < |rules| ==> !Matches(rules[i], s, t)
    ensures r.Some? ==> exists i :: 0 <= i < |rules| && Matches(rules[i], s, t) && rules[i].to == r.value
  {
    if rules == [] then None
    else if Matches(rules[0], s, t) then Some(rules[0].to)
    else
      var r := Lookup(rules[1..], s, t);
      assert forall i :: 1 <= i < |rules| ==> rules[i] == rules[1..][i - 1];
      r
  }

  /** The partial step function, one case per (state, name) pair the table lists. */
  function Step(s: RunState, t: Transition): Option<RunState> {
    match (s, t)
    case (Lobby, Play) => Some(Playing)
    case (Playing, Pause) => Some(Paused)
    case (Paused, Quit) => Some(Lobby)
    case (Paused, Unpause) => Some(Playing)
    case (Playing, End) => Some(Lobby)
    case (Paused, End) => Some(Lobby)
    case _ => None
  }

  /** The step function is what a first-match lookup in the declared table gives. */
  lemma StepIsTableLookup(s: RunState, t: Transition)
    ensures Step(s, t) == Lookup(Table, s, t)
  {
    var r := Lookup(Table, s, t);
    if r.Some? {
      var i :| 0 <= i < |Table| && Matches(Table[i], s, t) && Table[i].to == r.value;
    } else {
      assert forall i :: 0 <= i < |Table| ==> !Matches(Table[i], s, t);
      assert !Matches(Table[0], s, t) && !Matches(Table[1], s, t) && !Matches(Table[2], s, t);
      assert !Matches(Table[3], s, t) && !Matches(Table[4], s, t);
    }
  }

  /** The (state, name) pairs the table defines, written out independently of it. */
  const LegalPairs: set<(RunState, Transition)> := {
    (Lobby, Play), (Playing, Pause), (Paused, Quit), (Paused, Unpause), (Playing, End), (Paused, End)
  }

  /** Every transition name has a single target state. */
  function Target(t: Transition): RunState {
    match t
    case Play => Playing
    case Pause => Paused
    case Quit => Lobby
    case Unpause => Playing
    case End => Lobby
  }

  /** No two rows with the same name share a source state, so the first match is the only one. */
  lemma TableDeterministic()
    ensures forall i, j :: 0 <= i < j < |Table| && Table[i].name == Table[j].name ==> Table[i].from !! Table[j].from
  {
  }

  /** The step function is defined exactly on the six legal pairs, and each lands on its name's target. */
  lemma StepTable(s: RunState, t: Transition)
    ensures Step(s, t).Some? <==> (s, t) in LegalPairs
    ensures Step(s, t).Some? ==> Step(s, t).value == Target(t)
  {
  }

  /** From every state but Lobby a single transition, End, returns to Lobby. */
  lemma EndReturnsToLobby(s: RunState)
    requires s != Initial
    ensures Step(s, End) == Some(Lobby)
  {
  }

  /** Lobby is left only by Play. */
  lemma LobbyLeftOnlyByPlay(t: Transition)
    ensures Step(Lobby, t).Some? <==> t == Play
  {
  }

  /** A `stateChange` event as the hooks dispatch it. */
  datatype StateChange = StateChange(from: RunState, to: RunState)

  /** What a hook does to the frame ticker. */
  datatype TickerOp = Attach | Detach | Leave

  /** The effect of one transition hook. */
  datatype Hook = Hook(event: StateChange, ticker: TickerOp)

  /** The hook run for each transition, with its hard-coded event. */
  function HookOf(t: Transition): Hook {
    match t
    case Play => Hook(StateChange(Lobby, Playing), Attach)
    case Pause => Hook(StateChange(Playing, Paused), Detach)
    case Quit => Hook(StateChange(Paused, Lobby), Leave)
    case Unpause => Hook(StateChange(Paused, Playing), Leave)
    case End => Hook(StateChange(Playing, Lobby), Detach)
  }

  /**
   * The number of 'tick' listeners after a ticker operation: Attach registers
   * one more listener, Detach removes the stored one if it is registered.
   */
  function ApplyTicker(op: TickerOp, listeners: nat): nat {
    match op
    case Attach => listeners + 1
    case Detach => if listeners == 0 then 0 else listeners - 1
    case Leave => listeners
  }

  /**
   * A hook's event names the transition that actually fired, except for End
   * fired from Paused, whose event still says it came from Playing.
   */
  lemma HookReportsTransition(s: RunState, t: Transition)
    requires Step(s, t).Some?
    ensures HookOf(t).event.to == Step(s, t).value
    ensures HookOf(t).event == StateChange(s, Step(s, t).value) <==> !(t == End && s == Paused)
  {
  }

  /** The observable state of the machine: current state, dispatched events, attached tick listeners. */
  datatype Config = Config(state: RunState, events: seq<StateChange>, tickListeners: nat)

  const Start: Config := Config(Initial, [], 0)

  datatype Error = InvalidTransition(name: Transition, from: RunState)

  datatype Outcome = Fired(config: Config) | Rejected(error: Error)

  /** Firing one transition: rejected when the table has no row for it, otherwise the hook runs. */
  function Fire(c: Config, t: Transition): (r: Outcome)
    ensures r.Rejected? <==> (c.state, t) !in LegalPairs
    ensures r.Rejected? ==> r.error == InvalidTransition(t, c.state)
    ensures r.Fired? ==> r.config.state == Target(t)
    ensures r.Fired? ==> r.config.events == c.events + [HookOf(t).event]
  {
    StepTable(c.state, t);
    match Step(c.state, t)
    case None => Rejected(InvalidTransition(t, c.state))
    case Some(next) =>
      var hook := HookOf(t);
      Fired(Config(next, c.events + [hook.event], ApplyTicker(hook.ticker, c.tickListeners)))
  }

  /** Firing a sequence of transitions in order; the first rejection stops the run. */
  function Run(c: Config, ts: seq<Transition>): Outcome
    decreases |ts|
  {
    if ts == [] then Fired(c)
    else match Fire(c, ts[0])
      case Rejected(e) => Rejected(e)
      case Fired(c') => Run(c', ts[1..])
  }

  ghost predicate Reachable(s: RunState) {
    exists ts :: Run(Start, ts).Fired? && Run(Start, ts).config.state == s
  }

  /** Every run-state is reachable from the initial configuration. */
  lemma EveryStateReachable(s: RunState)
    ensures Reachable(s)
  {
    var playing := Fire(Start, Play).config;
    match s
    case Lobby =>
      assert Run(Start, []) == Fired(Start);
    case Playing =>
      assert Run(Start, [Play]) == Run(playing, []);
    case Paused =>
      assert Run(Start, [Play, Pause]) == Run(playing, [Pause]);
      assert Run(playing, [Pause]) == Run(Fire(playing, Pause).config, []);
  }

  /** The hard-coded events of the hooks of `ts`, in order. */
  function HookEvents(ts: seq<Transition>): (r: seq<StateChange>)
    ensures |r| == |ts|
    ensures forall i :: 0 <= i < |ts| ==> r[i] == HookOf(ts[i]).event
  {
    if ts == [] then [] else [HookOf(ts[0]).event] + HookEvents(ts[1..])
  }

  /** A completed run appends exactly one event per transition, each its hook's hard-coded one. */
  lemma {:induction false} RunAppendsHookEvents(c: Config, ts: seq<Transition>)
    requires Run(c, ts).Fired?
    ensures Run(c, ts).config.events == c.events + HookEvents(ts)
    decreases |ts|
  {
    if ts != [] {
      var o := Fire(c, ts[0]);
      assert o.Fired?;
      var c' := o.config;
      assert Run(c, ts) == Run(c', ts[1..]);
      RunAppendsHookEvents(c', ts[1..]);
      var e := HookOf(ts[0]).event;
      assert c'.events == c.events + [e];
      assert HookEvents(ts) == [e] + HookEvents(ts[1..]);
      assert c.events + HookEvents(ts) == c.events + [e] + HookEvents(ts[1..]);
    }
  }

  /** A completed non-empty run ends in the target of its last transition. */
  lemma {:induction false} RunEndsAtLastTarget(c: Config, ts: seq<Transition>)
    requires ts != [] && Run(c, ts).Fired?
    ensures Run(c, ts).config.state == Target(ts[|ts| - 1])
    decreases |ts|
  {
    var c' := Fire(c, ts[0]).config;
    assert Run(c, ts) == Run(c', ts[1..]);
    if |ts| > 1 {
      RunEndsAtLastTarget(c', ts[1..]);
      assert ts[1..][|ts[1..]| - 1] == ts[|ts| - 1];
    }
  }

  /**
   * A rejected run has an accepted prefix after which its next transition meets
   * a state with no row for it, and the run's error names that transition and state.
   */
  lemma {:induction false} RunRejectedAt(c: Config, ts: seq<Transition>)
    requires Run(c, ts).Rejected?
    ensures exists k :: (0 <= k < |ts| && Run(c, ts[..k]).Fired?
      && (Run(c, ts[..k]).config.state, ts[k]) !in LegalPairs
      && Run(c, ts).error == InvalidTransition(ts[k], Run(c, ts[..k]).config.state))
    decreases |ts|
  {
    if Fire(c, ts[0]).Rejected? {
      assert ts[..0] == [];
    } else {
      var c' := Fire(c, ts[0]).config;
      RunRejectedAt(c', ts[1..]);
      var k :| 0 <= k < |ts[1..]| && Run(c', ts[1..][..k]).Fired?
        && (Run(c', ts[1..][..k]).config.state, ts[1..][k]) !in LegalPairs
        && Run(c', ts[1..]).error == InvalidTransition(ts[1..][k], Run(c', ts[1..][..k]).config.state);
      assert ts[..k + 1][1..] == ts[1..][..k];
      assert ts[..k + 1][0] == ts[0];
      assert Run(c, ts[..k + 1]) == Run(c', ts[1..][..k]);
    }
  }

  /**
   * Conversely, a run whose transition k meets a state with no row for it
   * after an accepted prefix is rejected, with the error of that transition.
   */
  lemma {:induction false} RunRejectsFirstIllegal(c: Config, ts: seq<Transition>, k: nat)
    requires k < |ts| && Run(c, ts[..k]).Fired?
    requires (Run(c, ts[..k]).config.state, ts[k]) !in LegalPairs
    ensures Run(c, ts).Rejected?
    ensures Run(c, ts).error == InvalidTransition(ts[k], Run(c, ts[..k]).config.state)
    decreases k
  {
    if k == 0 {
      assert ts[..0] == [];
    } else {
      assert ts[..k][0] == ts[0];
      var c' := Fire(c, ts[0]).config;
      assert ts[..k][1..] == ts[1..][..k - 1];
      assert Run(c, ts[..k]) == Run(c', ts[1..][..k - 1]);
      RunRejectsFirstIllegal(c', ts[1..], k - 1);
    }
  }

  /**
   * The ticker invariant: at most one 'tick' listener is attached, and one is
   * attached only while Playing.
   */
  predicate TickerSound(c: Config) {
    c.tickListeners <= 1 && (c.tickListeners == 1 ==> c.state == Playing)
  }

  /** Play attaches the ticker, Pause and End detach it, Quit and Unpause leave it alone. */
  lemma FireTicker(c: Config, t: Transition)
    requires TickerSound(c) && Fire(c, t).Fired?
    ensures TickerSound(Fire(c, t).config)
    ensures t == Play ==> c.tickListeners == 0 && Fire(c, t).config.tickListeners == 1
    ensures t in {Pause, End} ==> Fire(c, t).config.tickListeners == 0
    ensures t in {Quit, Unpause} ==> Fire(c, t).config.tickListeners == c.tickListeners
  {
  }

  /** Along every run from a sound configuration the ticker is never attached twice. */
  lemma {:induction false} RunKeepsTickerSound(c: Config, ts: seq<Transition>)
    requires TickerSound(c)
    ensures Run(c, ts).Fired? ==> TickerSound(Run(c, ts).config)
    decreases |ts|
  {
    if ts != [] && Fire(c, ts[0]).Fired? {
      FireTicker(c, ts[0]);
      RunKeepsTickerSound(Fire(c, ts[0]).config, ts[1..]);
    }
  }

  /** Pause followed by Unpause returns to Playing with no tick listener attached. */
  lemma UnpauseLeavesTickerDetached(c: Config)
    requires c.state == Playing && TickerSound(c)
    ensures Run(c, [Pause, Unpause]).Fired?
    ensures Run(c, [Pause, Unpause]).config.state == Playing
    ensures Run(c, [Pause, Unpause]).config.tickListeners == 0
  {
  }
}
