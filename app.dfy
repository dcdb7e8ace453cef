/**
 * The app object that `gamey.make` builds: the current run-state, the
 * `stateChange` events it has dispatched, the frame ticker's listeners, the
 * updateables registry and the calls its frame passes have made. Stage,
 * canvas and resize handling are not part of this model; a stage redraw and
 * an entry's `update()` appear only as recorded calls.
 */
module Gamey {
  import opened Lifecycle
  import opened Registry

  class App {
    var state: RunState
    var events: seq<StateChange>
    var tickListeners: nat
    var updateables: seq<Updateable>
    var frameLog: seq<FrameCall>

    /** The machine's part of the app as one value. */
    function Machine(): Config
      reads this
    {
      Config(state, events, tickListeners)
    }

    ghost predicate Valid()
      reads this
    {
      TickerSound(Machine())
    }

    /** `gamey.make(updateables)`: the machine in Lobby, nothing dispatched, the ticker idle. */
    constructor (initial: seq<Updateable>)
      ensures Valid()
      ensures Machine() == Start && updateables == initial && frameLog == []
    {
      state := Initial;
      events := [];
      tickListeners := 0;
      updateables := initial;
      frameLog := [];
    }

    /**
     * `play`, `pause`, `quit`, `unpause`, `end`: fire transition `t`. When the
     * table has a row for it the state moves and the transition's hook runs;
     * otherwise the call is rejected and nothing changes.
     */
    method Fire(t: Transition) returns (outcome: Outcome)
      requires Valid()
      modifies this`state, this`events, this`tickListeners
      ensures Valid()
      ensures outcome == Lifecycle.Fire(old(Machine()), t)
      ensures outcome.Fired? ==> Machine() == outcome.config
      ensures outcome.Rejected? ==> Machine() == old(Machine())
    {
      var next := Step(state, t);
      if next.None? {
        outcome := Rejected(InvalidTransition(t, state));
        return;
      }
      var hook := HookOf(t);
      FireTicker(Machine(), t);
      state := next.value;
      tickListeners := ApplyTicker(hook.ticker, tickListeners);
      events := events + [hook.event];
      outcome := Fired(Machine());
    }

    /** Appends `u` at the end of the registry, duplicates allowed, and returns the app. */
    method AddUpdateable(u: Updateable) returns (self: App)
      modifies this`updateables
      ensures updateables == old(updateables) + [u]
      ensures self == this
    {
      updateables := updateables + [u];
      self := this;
    }

    /** Removes the first entry identical to `u`, if there is one, and returns the app. */
    method RemoveUpdateable(u: Updateable) returns (self: App)
      modifies this`updateables
      ensures updateables == RemoveFirst(old(updateables), u)
      ensures self == this
    {
      var index := IndexOf(updateables, u);
      if index != -1 {
        updateables := updateables[..index] + updateables[index + 1..];
      }
      self := this;
    }

    /** The number of registered entries. */
    method NumberUpdateables() returns (n: nat)
      ensures n == |updateables|
    {
      n := |updateables|;
    }

    /** One frame: redraw the stage, then call `update()` on every entry in index order. */
    method Update()
      modifies this`frameLog
      ensures frameLog == old(frameLog) + FramePass(updateables)
    {
      frameLog := frameLog + [StageRedraw];
      var i := 0;
      while i < |updateables|
        invariant 0 <= i <= |updateables|
        invariant frameLog == old(frameLog) + [StageRedraw] + EntryCalls(updateables[..i])
      {
        assert updateables[..i + 1] == updateables[..i] + [updateables[i]];
        EntryCallsAppend(updateables[..i], updateables[i]);
        frameLog := frameLog + [EntryUpdate(updateables[i])];
        i := i + 1;
      }
      assert updateables[..i] == updateables;
    }
  }

  lemma EntryCallsAppend(s: seq<Updateable>, u: Updateable)
    ensures EntryCalls(s + [u]) == EntryCalls(s) + [EntryUpdate(u)]
  {
  }

  /** A fresh app with no updateables counts one after a single add. */
  method CountAfterOneAdd() returns (n: nat)
    ensures n == 1
  {
    var app := new App([]);
    var u := new Updateable();
    var _ := app.AddUpdateable(u);
    n := app.NumberUpdateables();
  }

  /**
   * A feature that adds its updateable on enter and removes it on exit leaves
   * the registry as it found it.
   */
  method FeatureEnterExit(initial: seq<Updateable>) returns (before: nat, during: nat, after: seq<Updateable>)
    ensures during == before + 1
    ensures after == initial
  {
    var app := new App(initial);
    before := app.NumberUpdateables();
    var u := new Updateable();
    var _ := app.AddUpdateable(u);
    during := app.NumberUpdateables();
    AddThenRemove(initial, u);
    var _ := app.RemoveUpdateable(u);
    after := app.updateables;
  }

  /**
   * play, pause, unpause, end from a fresh app: four events, one per hook; the
   * ticker is off while Playing again after unpause, and the app ends in Lobby.
   * A pause from Lobby afterwards is rejected.
   */
  method PlayPauseUnpauseEnd() returns (resumed: Config, final: Config, late: Outcome)
    ensures resumed.state == Playing && resumed.tickListeners == 0
    ensures final.state == Lobby && final.tickListeners == 0
    ensures final.events == [
      StateChange(Lobby, Playing), StateChange(Playing, Paused),
      StateChange(Paused, Playing), StateChange(Playing, Lobby)]
    ensures late == Rejected(InvalidTransition(Pause, Lobby))
  {
    var app := new App([]);
    var o1 := app.Fire(Play);
    var o2 := app.Fire(Pause);
    var o3 := app.Fire(Unpause);
    resumed := app.Machine();
    var o4 := app.Fire(End);
    final := app.Machine();
    late := app.Fire(Pause);
  }

  /** End fired from Paused returns to Lobby, yet its event reports that it left Playing. */
  method EndFromPaused() returns (final: Config)
    ensures final.state == Lobby && final.tickListeners == 0
    ensures final.events == [StateChange(Lobby, Playing), StateChange(Playing, Paused), StateChange(Playing, Lobby)]
  {
    var app := new App([]);
    var o1 := app.Fire(Play);
    var o2 := app.Fire(Pause);
    var o3 := app.Fire(End);
    final := app.Machine();
  }
}
