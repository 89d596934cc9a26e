# vega-vis: a Dafny model of the ember-vega component lifecycle

ember-vega's `vega-vis` Ember component binds one Vega view to its DOM element. The
model follows the component's lifecycle hooks and helpers, one method each:

- **Mount** (`didInsertElement`). The component subscribes to window resizes outside
  fastboot, asserts that `spec` is set, and merges an array `data` into a spec that has
  no `data` key. It then builds the view, initializes it outside fastboot, sizes it,
  applies truthy padding and background, sets the log level (default `Warn`), the
  renderer and hover, and runs the view once behind the run guard. Last, it stores the
  view in `vis` and binds the `events` and `signalEvents` tables.
- **Update** (`didUpdateAttrs`). It schedules a resize pass from the `(old, new)` pairs
  of `isVisible` and `aspectRatio`.
- **Resize** (`windowResize`, reached through the debounced window handler and
  `scheduleOnceResize`). It re-sizes the view and runs only the `enter` encode set.
- **Teardown** (`willDestroyElement`). It unsubscribes and unbinds the tables current
  at that moment. Then it finalizes the view and clears `vis`, so a second teardown
  does nothing.

Modules:

- `Values` (values.dfy): attribute values. `Flag` is a tri-state boolean, because the
  code tests `isVisible !== false` (unset counts as visible) but tests `isResizable`
  for truthiness (unset blocks resizing).
- `Listeners` (listeners.dfy): a view's listener registry as a sequence of
  (name, handler) entries. It holds what binding and unbinding a whole handler table
  does, and the bind/unbind lemmas.
- `Sizing` (sizing.dfy): the target size.
- `Guards` (guards.dfy): the run guard, the resize guard and the update decision table.
- `Runtime` (view.dfy): class `View`, the Vega view. Each method records the call it
  receives.
- `Component` (component.dfy): class `VegaVis` with the component's attributes and
  state. `Valid()` says that the stored view is not finalized and that no view the
  component built was finalized twice.
- `Scenarios` (scenarios.dfy): whole lifecycles and what each one leaves behind.

Behaviours of the code that are easy to misread; the model follows the code:

- `config` is missing from the `getProperties` list, so `vg.parse` always gets an
  undefined config (`View.config` is None).
- Sizing has no zero-width guard. A zero width is applied as it is.
- A window resize pass needs `isResizable` to be truthy. An unset flag blocks it.
- A visibility pair schedules a pass whenever the new value is truthy and differs from
  the old one. It is not limited to a `false`→`true` transition.
- Teardown does not cancel the debounce timer or a scheduled pass. A late pass is a
  no-op only because `vis` is already cleared.
- The window listener is added before the spec assertion, so a failed mount leaves it
  subscribed.

## Model

| member | source | states |
|---|---|---|
| `Listeners.Registered` | addon/components/vega-vis.js:215-229 | calling `addEventListener`/`addSignalListener` once per table entry, in entry order, appends the table to the registry |
| `Listeners.RemoveListener` | addon/components/vega-vis.js:231-233 | one remove call drops exactly the entries equal to the given (name, handler) pair; the others keep their order and multiplicity |
| `Listeners.Unregistered` | addon/components/vega-vis.js:215-225 | removing a table entry by entry leaves exactly the registry entries that are not in the table |
| `Listeners.UnregisteredIsWithout` | addon/components/vega-vis.js:215-225 | entry-by-entry removal equals the order-preserving filter of the registry by the table |
| `Listeners.BindThenUnbind` | addon/components/vega-vis.js:227-241 | binding a table and then unbinding the same table has the effect of unbinding alone: nothing that was bound survives |
| `Listeners.BindThenUnbindRestores` | addon/components/vega-vis.js:148-149 | when none of the table's pairs was registered before, bind then unbind restores the registry exactly |
| `Listeners.InvokedRoundTrip` | addon/components/vega-vis.js:165-166 | the same restoration holds for any add/remove method pair that targets one namespace |
| `Listeners.Invoked` | addon/components/vega-vis.js:219-221 | calling a method once per table entry leaves the other namespace alone, appends the table for an add method, and for a remove method keeps exactly the entries outside the table |
| `Listeners.InvokedSnoc` | addon/components/vega-vis.js:219-221 | one more table entry adds one call to the namespace's registry: append for add, remove for remove |
| `Sizing.TargetSize` | addon/components/vega-vis.js:243-254 | width is the measured width; height is ratio × width when a ratio is present, else the measured height; a zero width with a ratio gives a zero-area size (no guard); nothing is negative unless an input is |
| `Guards.RunAllowed` | addon/components/vega-vis.js:174-186 | a run needs a view and a visibility that is not explicitly false; only both destroy flags together block it |
| `Guards.ResizeAllowed` | addon/components/vega-vis.js:188-196 | a resize pass happens exactly when `isResizable` is set to true and `isVisible` is not false |
| `Guards.VisibilityRequestsResize` | addon/components/vega-vis.js:66-72 | an `isVisible` pair asks for a resize exactly for the transitions false→true and unset→true |
| `Guards.AspectRatioRequestsResize` | addon/components/vega-vis.js:77-83 | an `aspectRatio` pair asks for a resize exactly when old and new differ: two different ratios, or a ratio set or cleared; an equal pair or no pair asks for nothing |
| `Guards.ScheduleRequests` | addon/components/vega-vis.js:54-85 | no notification, or no pairs, schedules nothing; hiding alone schedules nothing; two requests need a visibility change to true and an aspect-ratio pair |
| `Values.LogLevelName` | addon/components/vega-vis.js:141 | the log level is the attribute when it is a non-empty string, else `Warn` |
| `Runtime.View.constructor` | addon/components/vega-vis.js:109-110 | a new view records what it was parsed from and has no listeners, runs or finalization |
| `Runtime.View.Initialize` | addon/components/vega-vis.js:114 | the view is initialized |
| `Runtime.View.Width` | addon/components/vega-vis.js:251 | the view's width becomes the given width |
| `Runtime.View.Height` | addon/components/vega-vis.js:251 | the view's height becomes the given height |
| `Runtime.View.SetPadding` | addon/components/vega-vis.js:134 | the view's padding becomes the given padding |
| `Runtime.View.SetBackground` | addon/components/vega-vis.js:138 | the view's background becomes the given colour |
| `Runtime.View.SetLogLevel` | addon/components/vega-vis.js:141 | the view's log level becomes the given level |
| `Runtime.View.SetRenderer` | addon/components/vega-vis.js:142 | the view's renderer becomes the given mode |
| `Runtime.View.Hover` | addon/components/vega-vis.js:143 | hover is enabled on the view |
| `Runtime.View.Run` | addon/components/vega-vis.js:184 | each run call is recorded with its encode set and the settings (initialized, size, padding, background, log level, renderer, hover) the view had at that moment |
| `Runtime.View.AddEventListener` | addon/components/vega-vis.js:220 | the (name, handler) pair is appended to the event registry |
| `Runtime.View.RemoveEventListener` | addon/components/vega-vis.js:220 | the event registry loses exactly the entries equal to the pair |
| `Runtime.View.AddSignalListener` | addon/components/vega-vis.js:220 | the (name, handler) pair is appended to the signal registry |
| `Runtime.View.RemoveSignalListener` | addon/components/vega-vis.js:220 | the signal registry loses exactly the entries equal to the pair |
| `Runtime.View.Finalize` | addon/components/vega-vis.js:167 | each finalize call is counted, and the event and signal registries are recorded as finalize found them |
| `Component.SpecDoc.constructor` | addon/components/vega-vis.js:104-107 | the host's spec object, whose `data` key the mount may set in place |
| `Component.VegaVis.constructor` | addon/components/vega-vis.js:17-46 | the component's defaults: renderer `svg`, log level `Warn`, visible and resizable, no tables, no view |
| `Component.VegaVis.DidInsertElement` | addon/components/vega-vis.js:87-152 | a missing spec fails the assertion before any view is built; otherwise the data merge rule, a fresh view parsed without config and built from the spec, every setting, one guarded run that sees the sized and styled view, and both tables bound to the stored view |
| `Component.VegaVis.BuildView` | addon/components/vega-vis.js:109-143 | the view is parsed without config, initialized only outside fastboot, sized, padded and given a background only when those are truthy, given a log level, a renderer and hover |
| `Component.VegaVis.Install` | addon/components/vega-vis.js:144-149 | the first run is guarded, has no encode set and sees the settings already applied; the view is stored before the tables are bound, so both tables reach it |
| `Component.VegaVis.WillDestroyElement` | addon/components/vega-vis.js:154-172 | unsubscribes outside fastboot; a stored view has the current tables unbound before it is finalized (finalize finds both registries already unbound), is finalized exactly once and is dropped; a second call finalizes nothing |
| `Component.VegaVis.DidUpdateAttrs` | addon/components/vega-vis.js:54-85 | a pass is pending afterwards exactly when one was before or the notification asks for one |
| `Component.VegaVis.VisRun` | addon/components/vega-vis.js:174-186 | the view records a run with the encode set exactly when the run guard holds |
| `Component.VegaVis.WindowResize` | addon/components/vega-vis.js:188-207 | with the resize guard the stored view gets the target size and a guarded `enter` run that sees the new size; without it nothing changes |
| `Component.VegaVis.ScheduleOnceResize` | addon/components/vega-vis.js:209-213 | afterwards a pass is pending, however many requests came before |
| `Component.VegaVis.AfterRender` | addon/components/vega-vis.js:210 | a pending pass runs once and is cleared; without one nothing changes |
| `Component.VegaVis.OnWindowResize` | addon/components/vega-vis.js:258-260 | a window resize starts the debounce only while the handler is subscribed |
| `Component.VegaVis.DebounceElapsed` | addon/components/vega-vis.js:259 | the debounce firing schedules one pass and clears itself |
| `Component.VegaVis.InvokeEventMethod` | addon/components/vega-vis.js:215-225 | without a view or a table nothing changes; otherwise the named method's namespace gets one call per entry in entry order and the other namespace is untouched |
| `Component.VegaVis.AddEvents` | addon/components/vega-vis.js:227-229 | the event table is appended to the view's event listeners |
| `Component.VegaVis.RemoveEvents` | addon/components/vega-vis.js:231-233 | the event table's pairs are removed from the view's event listeners |
| `Component.VegaVis.AddSignalEvents` | addon/components/vega-vis.js:235-237 | the signal table is appended to the view's signal listeners |
| `Component.VegaVis.RemoveSignalEvents` | addon/components/vega-vis.js:239-241 | the signal table's pairs are removed from the view's signal listeners |
| `Component.VegaVis.SizeVis` | addon/components/vega-vis.js:243-254 | the view gets the target size for the measurements and the current `aspectRatio` |
| `Component.VegaVis.SetupWindowResize` | addon/components/vega-vis.js:256-264 | subscribes exactly when not under fastboot |
| `Component.VegaVis.TeardownWindowResize` | addon/components/vega-vis.js:266-270 | unsubscribes exactly when not under fastboot |
| `Scenarios.MountThenDestroyTwice` | addon/components/vega-vis.js:148-168 | mount and two teardowns finalize the view once, after both tables were unbound, and leave no listener in either namespace |
| `Scenarios.CoalescedWindowResizes` | addon/components/vega-vis.js:209-213 | any number of window resizes within one debounce give one `enter` run, which sees the measured size; a second render cycle adds none |
| `Scenarios.ResizePassAfterDestroy` | addon/components/vega-vis.js:188-207 | a pass that was set off before teardown still gets scheduled, but it leaves the released view's size and runs as they were |
| `Scenarios.SizedMounts` | addon/components/vega-vis.js:248 | width 400 with ratio 0.5 gives height 200; without a ratio the measured height 300 is kept |
| `Scenarios.ServerRender` | addon/components/vega-vis.js:112-115 | under fastboot there is no initialize and no window subscription, but one run happens on the uninitialized, hovered view, with log level `Warn` and renderer `svg` |
| `Scenarios.MountWithoutSpec` | addon/components/vega-vis.js:102 | without a spec the mount fails with the assertion message, stores no view, and leaves the window listener subscribed |
| `Scenarios.DataMerge` | addon/components/vega-vis.js:104-107 | array data reaches the parsed spec when the spec has no data key; a spec's own data is kept |
| `Scenarios.HideThenShow` | addon/components/vega-vis.js:63-72 | hiding schedules nothing; showing again schedules one pass that re-sizes the view and runs `enter`; the first run saw the mounted size, the `enter` run the new one |
| `Scenarios.AspectRatioChange` | addon/components/vega-vis.js:77-83 | changing `aspectRatio` from 0.5 to 1.0 on a 400-wide element schedules one pass, which moves the height from 200 to 400 before its `enter` run |

## Left out

- The Vega runtime itself is not modelled: parsing, rendering, signal semantics, and the
  `vg[logLevel]` constant lookup. The view stores the log level's name. Listener removal
  is taken to drop every entry equal to the (name, handler) pair.
- DOM measurement (`this.$().width()/height()`) is not modelled. The measurements are
  method parameters.
- The jQuery window subscription is reduced to the flag `resizeSubscribed`.
- Ember runloop timing is not modelled: `run.debounce(…, 50)` timers and render cycles.
  The model keeps only a debounce-pending flag and a pass-pending flag; the host calls
  `OnWindowResize`, `DebounceElapsed` and `AfterRender` in the order events occur.
- The fastboot service lookup is reduced to the boolean `fastboot`.
- `ember-diff-attrs` is replaced by optional `(old, new)` pairs given as input.
- `this._super(...)` calls and the `return this` of the helpers are left out. They return
  nothing the component uses.
- The framework's setting of `isDestroying`/`isDestroyed` is not modelled. The fields
  are plain state.
- The commented-out data insertion block is left out. It is not code.
- `Values.Flag`: `undefined` and `null` are both `Unset`. JavaScript's `!==` would tell
  them apart in a visibility pair, and other truthy or falsy values are not modelled.
- `Component.VegaVis.SetupWindowResize`: the subscription is a single flag. A second
  mount on the same component would add a second window handler in the code.
- `Sizing.TargetSize`: real arithmetic, without floating-point rounding. `isPresent` is
  taken to hold for every number.
- `Component.VegaVis.DidInsertElement`: Ember's `assert` is modelled as a failed
  outcome. In a production build, where assertions are stripped, a missing spec throws
  at `'data' in spec` when `data` is an array; with any other `data` the test short-circuits and the mount goes on to
  `vg.parse(undefined, …)`, whose outcome belongs to the Vega runtime. The model stops
  at the assertion in every build and builds no view.
- `Guards.AspectRatioRequestsResize`: `aspectRatio` is `Option<real>`, so `null` and
  `undefined` are both None. A `(null, undefined)` pair schedules a pass in the code,
  whose `!==` tells them apart, but `Change(None, None)` schedules none in the model.
- `Runtime.View`: the view records its settings per run and its registries at finalize,
  so the order of the settings relative to the runs, and of unbinding relative to
  finalize, is captured. The relative order of the setting calls among themselves is not.
- index.js is not part of this model. It is build glue: Broccoli trees, resolving the
  `vega` package, `app.import` and `findHost`.
- The `vega-vis-container-dimensions` component, exercised by the integration test, is
  not part of this model.

