# gamey app core in Dafny

A model of the core of `gamey.make` (index.js), the factory that builds a
gamey app. It covers two parts.

- **The run-state machine.** There are three states: `lobby` (the initial state), `playing` and `paused`.
  - Five transitions are declared in the table: `play`, `pause`, `quit`, `unpause` and `end`.
  - Each transition has a hook. The hook dispatches one hard-coded `stateChange` event.
  - Some hooks attach the app's frame handler to the `tick` event of the frame ticker, and some detach it.
- **The updateables registry.** This is an ordered list of objects, compared by identity.
  - `addUpdateable` appends an object.
  - `removeUpdateable` removes the first identical entry.
  - `getNumberUpdateables` returns the count.
  - `update` is the frame pass. It redraws the stage once, then calls `update()` on every entry in index order.

Files:

- `lifecycle.dfy` (module `Lifecycle`) holds the pure model:
  - the table as data (`Table`) and the partial step function `Step`;
  - the hooks (`HookOf`) and the ticker listener count (`ApplyTicker`);
  - the machine's observable configuration `Config`, with the current state, the dispatched events and the attached tick listeners;
  - firing one transition (`Fire`) or a sequence of them (`Run`), and the lemmas about both.
- `registry.dfy` (module `Registry`) holds the registry's functions: `IndexOf`, `RemoveFirst` and the calls of a frame pass, `FramePass`. It also holds their lemmas.
- `app.dfy` (module `Gamey`) holds the class `App`:
  - its fields are the ones the app changes in place;
  - its methods are proved against the functions above;
  - four client methods replay the test's count assertion, a feature's enter/exit and two runs of the machine.

Illegal (state, transition) pairs come back as `Rejected(InvalidTransition(name, from))`. In that case no hook runs and nothing changes.

index.js has no `initializing` or `end` state, no `lobby`, `init` or `setState` operation and no `getStateName`. test/index.spec.js:35-59 and 82-160 expect them. The model follows index.js.

## Model

| member | source | states |
|---|---|---|
| Lifecycle.Lookup | index.js:23-32 | The lookup finds a target exactly when some row of the table has the transition's name and lists the current state among its sources. The target it returns is that row's `to`. |
| Lifecycle.StepIsTableLookup | index.js:25-30 | The step function agrees, on every (state, name) pair, with a first-match lookup in the declared table. |
| Lifecycle.TableDeterministic | index.js:25-30 | No two rows with the same name share a source state, so at most one row can fire from any state. |
| Lifecycle.StepTable | index.js:25-30 | A transition is defined exactly on the six pairs lobby/play, playing/pause, paused/quit, paused/unpause, playing/end and paused/end. Each defined step lands on its name's target: play/unpause to playing, pause to paused, quit/end to lobby. |
| Lifecycle.EndReturnsToLobby | index.js:30 | From every state other than lobby, the single transition `end` returns to lobby. |
| Lifecycle.LobbyLeftOnlyByPlay | index.js:24-30 | From lobby, `play` is the only transition with a row. |
| Lifecycle.EveryStateReachable | index.js:24-30 | Every state is reached from the initial configuration by some run of accepted transitions. |
| Lifecycle.HookReportsTransition | index.js:34-56 | A hook's event always names the state actually entered. Its `from` equals the state actually left unless the transition is `end` fired from paused, which reports `from: playing`. |
| Lifecycle.Fire | index.js:23-57 | Firing is rejected exactly for pairs outside the table, with an error naming the transition and the state. An accepted firing moves to the transition's target and appends exactly its hook's one event to the log. |
| Lifecycle.RunAppendsHookEvents | index.js:34-56 | A completed run of transitions appends exactly one event per transition to the log, in order, each being that transition's hard-coded event. |
| Lifecycle.RunEndsAtLastTarget | index.js:25-30 | A completed non-empty run ends in the target of its last transition. |
| Lifecycle.RunRejectedAt | index.js:23-30 | A rejected run has an accepted prefix after which its next transition meets a state for which the table has no row, and the run's error names that transition and that state. |
| Lifecycle.RunRejectsFirstIllegal | index.js:23-30 | Conversely, a run whose transition k meets a state with no row for it after an accepted prefix is rejected, with the error naming transition k and that state. |
| Lifecycle.FireTicker | index.js:34-56 | `play` attaches the ticker and finds no listener already attached. `pause` and `end` leave no listener. `quit` and `unpause` leave the count as it was. Firing keeps the ticker invariant: at most one listener, and one only while playing. |
| Lifecycle.RunKeepsTickerSound | index.js:21-56 | Along any run from a sound configuration, the ticker never gets a second listener and is attached only while playing. |
| Lifecycle.UnpauseLeavesTickerDetached | index.js:39-51 | `pause` then `unpause` from playing returns to playing with no tick listener attached. This is the source's own behaviour as written: `onUnpause` never re-attaches the ticker that `onPause` detached, so the app is playing but gets no frame updates. |
| Registry.IndexOf | index.js:80 | The index is -1 exactly when the object is absent. Otherwise it is the position of its first identical entry. |
| Registry.RemoveFirstPresent | index.js:79-85 | Removing a present object shortens the list by one and deletes its first occurrence only. The entries before and after keep their order, and one copy leaves the multiset. |
| Registry.RemoveFirstAbsent | index.js:80-84 | Removing an absent object leaves the list unchanged. |
| Registry.AddThenRemove | index.js:74-85 | Adding and then removing the same object restores the length and the multiset of entries. It restores the list itself when the object was not already registered. |
| Registry.EntryCalls | index.js:89-91 | The entry calls of a pass are one `update()` per index, in index order. |
| Registry.EntryCallsCount | index.js:89-91 | Each occurrence of an object in the registry gets exactly one `update()` call, and no stage redraw is among the entry calls. |
| Registry.FramePassOrder | index.js:87-92 | A frame pass redraws the stage exactly once, before every entry. It then updates the entry at index i at position i + 1, once per occurrence. |
| Gamey.App.constructor | index.js:12-24 | A new app is in lobby with no event and no tick listener, and holds the given updateables. |
| Gamey.App.Fire | index.js:68-72 | `play`/`pause`/`quit`/`unpause`/`end` return `Lifecycle.Fire`'s outcome and keep the ticker invariant. They take on the new configuration when the transition is accepted and leave everything unchanged when it is rejected. |
| Gamey.App.AddUpdateable | index.js:74-77 | The registry becomes the old one with the object appended, duplicates allowed, and the app is returned. |
| Gamey.App.RemoveUpdateable | index.js:79-85 | The registry becomes the old one with the first identical entry removed, if any, and the app is returned. |
| Gamey.App.NumberUpdateables | index.js:94-96 | The count is the registry's length. |
| Gamey.App.Update | index.js:87-92 | The frame log grows by exactly the frame pass over the current registry. The registry itself is not changed. |
| Gamey.CountAfterOneAdd | test/index.spec.js:63-79 | An app made with no updateables counts 1 after one `addUpdateable`. |
| Gamey.FeatureEnterExit | test/feature/playing/playing-manager.js:27-46 | A feature that adds its updateable on enter and removes it on exit raises the count by one while entered and leaves the registry as it found it. |
| Gamey.PlayPauseUnpauseEnd | index.js:23-72 | play, pause, unpause, end from a new app dispatch the four hard-coded events in order. The app is playing with the ticker off after unpause and ends in lobby with the ticker off. A later `pause` from lobby is rejected. |
| Gamey.EndFromPaused | index.js:52-56 | play, pause, end ends in lobby with the ticker off. The last event reports `from: playing` although the machine left paused. |

## Left out

- The state-machine library (`window.StateMachine`) is not part of this model. An illegal pair is modelled as a rejection that runs no hook and changes no state, which is what a throw before any hook leaves. How the library reports the rejection is not modelled.
- Gamey.App.Fire: the library's order of its own lifecycle callbacks around `on<Transition>` is not modelled. A hook's effects and the state change are one atomic step.
- `console.log` calls in the hooks are output only and are not modelled.
- Stage, container, canvas, resize handling and the ticker's frame rate are rendering and DOM work and are not modelled. A stage redraw appears only as a recorded `StageRedraw` call.
- The frame ticker is modelled as the number of attached `tick` listeners. Detaching removes the stored listener when one is attached. That count is exact because the model proves at most one listener is ever attached. The ticker calling `update` on every tick is clock-driven and is not modelled.
- The event dispatcher mixin (`on`, `once`, `off`, `dispatch`) is not part of this model. A dispatch is an append to the event log.
- Gamey.App.constructor: the registry is modelled as a value, so the caller's array being shared with the app (aliasing) is not captured.
- Gamey.App.Update: the entries' own `update()` bodies are not modelled, and neither is an entry changing the registry during the pass. Each call is only recorded. The `event` argument is ignored, as in the source.
- The feature fixtures' tweens, views and floating-point positions are rendering code and are not modelled. Only their add-on-enter and remove-on-exit use of the registry is replayed.
- The parts of test/index.spec.js that target operations index.js does not have (`init`, `lobby`, `setState`, `getStateName`, the `initializing` state) are not modelled.
