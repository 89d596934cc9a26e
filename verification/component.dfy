/** The `vega-vis` component: it builds one Vega view when its element is inserted, keeps
    it sized on window resizes and on changes of `isVisible` and `aspectRatio`, binds the
    `events` and `signalEvents` handler tables to it, and finalizes it when the element
    is destroyed. */
module Component {
  import opened Values
  import Listeners
  import Sizing
  import Guards
  import Runtime

  /** The host's spec object, which the component may extend in place; `data` is None
      while the spec has no `data` key. */
  class SpecDoc {
    var data: Option<Data>

    constructor (data: Option<Data>)
      ensures this.data == data
    {
      this.data := data;
    }
  }

  /** The spec a nullable reference holds, as a frame. */
  function HeldSpec(s: SpecDoc?): set<SpecDoc> {
    if s == null then {} else {s}
  }

  class VegaVis {
    // Attributes the host supplies (the initial values are the component's defaults).
    var spec: SpecDoc?
    var data: Option<Data>
    /** Never read: the mount's property list leaves `config` out. */
    var config: Option<Config>
    var rendererType: string
    var logLevel: Option<string>
    var background: Option<string>
    var padding: Option<Padding>
    var aspectRatio: Option<real>
    var isVisible: Flag
    var isResizable: Flag
    var events: Option<seq<Listener>>
    var signalEvents: Option<seq<Listener>>
    /** Whether a fastboot service is registered, i.e. the render has no DOM. */
    const fastboot: bool

    // Set by the framework while the component is being destroyed.
    var isDestroying: bool
    var isDestroyed: bool

    // The component's own state.
    var vis: Runtime.View?
    /** The window `resize` handler is subscribed. */
    var resizeSubscribed: bool
    /** A debounced `scheduleOnceResize` is waiting for its 50 ms of quiet. */
    var debouncePending: bool
    /** A `windowResize` pass is scheduled for after the next render. */
    var resizePending: bool
    /** Every view this component has built. */
    ghost var Built: set<Runtime.View>

    /** The view in `vis` has not been finalized, and no view was finalized twice. */
    ghost predicate Valid()
      reads this, Built
    {
      (vis != null ==> vis in Built && vis.finalizeCount == 0) &&
      (forall v :: v in Built ==> v.finalizeCount <= 1)
    }

    constructor (spec: SpecDoc?, data: Option<Data>, fastboot: bool)
      ensures Valid() && Built == {}
      ensures this.spec == spec && this.data == data && this.fastboot == fastboot
      ensures config.None? && rendererType == DefaultRenderer && logLevel == Some(DefaultLogLevel)
      ensures background.None? && padding.None? && aspectRatio.None?
      ensures isVisible == On && isResizable == On && events.None? && signalEvents.None?
      ensures !isDestroying && !isDestroyed
      ensures vis == null && !resizeSubscribed && !debouncePending && !resizePending
    {
      this.spec := spec;
      this.data := data;
      this.fastboot := fastboot;
      config := None;
      rendererType := DefaultRenderer;
      logLevel := Some(DefaultLogLevel);
      background, padding, aspectRatio := None, None, None;
      isVisible, isResizable := On, On;
      events, signalEvents := None, None;
      isDestroying, isDestroyed := false, false;
      vis := null;
      resizeSubscribed, debouncePending, resizePending := false, false, false;
      Built := {};
    }

    /** `didInsertElement`: subscribe to window resizes, check the spec, build, size and
        style the view, run it once, store it, then bind both handler tables. */
    method DidInsertElement(measuredWidth: real, measuredHeight: real) returns (outcome: MountOutcome)
      requires Valid()
      modifies this`vis, this`resizeSubscribed, this`Built, HeldSpec(spec)`data
      ensures Valid()
      ensures resizeSubscribed == (old(resizeSubscribed) || !fastboot)
      // a falsy spec fails the assertion before any view is built
      ensures spec == null ==> outcome == AssertionFailed(SpecAssertionMessage) && vis == old(vis) && Built == old(Built)
      ensures spec != null ==> outcome == Mounted && vis != null && fresh(vis) && Built == old(Built) + {vis}
      // `data` goes into the spec only when it is an array and the spec has no `data` key
      ensures spec != null ==> (spec.data ==
        (if old(spec.data).None? && data.Some? && data.value.IsArray() then data else old(spec.data)))
      ensures spec != null ==> vis.parsedData == spec.data && vis.config.None?
      ensures spec != null ==> vis.initialized == !fastboot
      ensures spec != null ==> Sizing.Size(vis.width, vis.height) == Sizing.TargetSize(measuredWidth, measuredHeight, aspectRatio)
      ensures spec != null ==> vis.padding == (if PaddingTruthy(padding) then padding else None)
      ensures spec != null ==> vis.background == (if BackgroundTruthy(background) then background else None)
      ensures spec != null ==> vis.logLevel == Some(LogLevelName(logLevel)) && vis.renderer == Some(rendererType) && vis.hovered
      // one guarded run without an encode set, which sees the view already sized and styled
      ensures spec != null ==> (vis.runs ==
        (if Guards.RunAllowed(true, isVisible, isDestroyed, isDestroying) then [Runtime.RunRecord(None, vis.Current())] else []))
      // the tables are bound after `vis` is stored, so they reach the new view
      ensures spec != null ==> vis.eventListeners == (if events.Some? then events.value else [])
      ensures spec != null ==> vis.signalListeners == (if signalEvents.Some? then signalEvents.value else [])
      ensures spec != null ==> vis.finalizeCount == 0 && vis.finalizedWith.None?
    {
      SetupWindowResize();
      if spec == null {
        outcome := AssertionFailed(SpecAssertionMessage);
        return;
      }
      if data.Some? && data.value.IsArray() && spec.data.None? {
        spec.data := data;
      }
      var v := BuildView(spec.data, measuredWidth, measuredHeight);
      Install(v);
      outcome := Mounted;
    }

    /** The part of `didInsertElement` from `vg.parse` to `vis.hover()`: the view is built
        from the spec without a config, initialized only outside fastboot, sized, and styled. */
    method BuildView(parsedData: Option<Data>, measuredWidth: real, measuredHeight: real) returns (v: Runtime.View)
      requires Valid()
      ensures Valid()
      ensures fresh(v)
      ensures v.parsedData == parsedData && v.config.None?
      ensures v.initialized == !fastboot
      ensures Sizing.Size(v.width, v.height) == Sizing.TargetSize(measuredWidth, measuredHeight, aspectRatio)
      ensures v.padding == (if PaddingTruthy(padding) then padding else None)
      ensures v.background == (if BackgroundTruthy(background) then background else None)
      ensures v.logLevel == Some(LogLevelName(logLevel)) && v.renderer == Some(rendererType) && v.hovered
      ensures v.runs == [] && v.eventListeners == [] && v.signalListeners == [] && v.finalizeCount == 0
      ensures v.finalizedWith.None?
    {
      v := new Runtime.View(parsedData, None);
      if !fastboot {
        v.Initialize();
      }
      SizeVis(v, measuredWidth, measuredHeight);
      if PaddingTruthy(padding) {
        v.SetPadding(padding.value);
      }
      if BackgroundTruthy(background) {
        v.SetBackground(background.value);
      }
      v.SetLogLevel(LogLevelName(logLevel));
      v.SetRenderer(rendererType);
      v.Hover();
    }

    /** The end of `didInsertElement`: the first guarded run, storing the view, and binding
        both handler tables to it. */
    method Install(v: Runtime.View)
      requires Valid() && v !in Built
      requires v.runs == [] && v.eventListeners == [] && v.signalListeners == [] && v.finalizeCount == 0
      modifies this`vis, this`Built, v`runs, v`eventListeners, v`signalListeners
      ensures Valid() && vis == v && Built == old(Built) + {v}
      ensures v.runs == (if Guards.RunAllowed(true, isVisible, isDestroyed, isDestroying) then [Runtime.RunRecord(None, v.Current())] else [])
      ensures v.Current() == old(v.Current())
      ensures v.eventListeners == (if events.Some? then events.value else [])
      ensures v.signalListeners == (if signalEvents.Some? then signalEvents.value else [])
    {
      VisRun(v, None);
      vis := v;
      Built := Built + {v};
      AddEvents(events);
      AddSignalEvents(signalEvents);
    }

    /** `willDestroyElement`: unsubscribe, and when a view exists unbind the tables current
        now, finalize the view and drop it. */
    method WillDestroyElement()
      requires Valid()
      modifies this`resizeSubscribed, this`vis, Runtime.Held(vis)`eventListeners, Runtime.Held(vis)`signalListeners
      modifies Runtime.Held(vis)`finalizeCount, Runtime.Held(vis)`finalizedWith
      ensures Valid()
      ensures resizeSubscribed == (old(resizeSubscribed) && fastboot)
      ensures vis == null
      ensures old(vis) != null ==> old(vis).finalizeCount == 1
      // finalize comes after both tables are unbound
      ensures old(vis) != null ==> old(vis).finalizedWith == Some((old(vis).eventListeners, old(vis).signalListeners))
      ensures old(vis) != null ==> (old(vis).eventListeners ==
        Listeners.Invoked(RemoveEventListener, Events, old(vis.eventListeners), if events.Some? then events.value else []))
      ensures old(vis) != null ==> (old(vis).signalListeners ==
        Listeners.Invoked(RemoveSignalListener, Signals, old(vis.signalListeners), if signalEvents.Some? then signalEvents.value else []))
    {
      TeardownWindowResize();
      if vis != null {
        RemoveEvents(events);
        RemoveSignalEvents(signalEvents);
        vis.Finalize();
        vis := null;
      }
    }

    /** `didUpdateAttrs`: a truthy new `isVisible` that differs from the old one, or a
        changed `aspectRatio`, each ask for a resize pass. */
    method DidUpdateAttrs(changedAttrs: Option<ChangedAttrs>)
      requires Valid()
      modifies this`resizePending
      ensures Valid()
      ensures resizePending == (old(resizePending) || Guards.ScheduleRequests(changedAttrs) > 0)
    {
      if changedAttrs.Some? {
        if changedAttrs.value.isVisible.Some? {
          var change := changedAttrs.value.isVisible.value;
          if change.after.Truthy() && change.before != change.after {
            ScheduleOnceResize();
          }
        }
        if changedAttrs.value.aspectRatio.Some? {
          var change := changedAttrs.value.aspectRatio.value;
          if change.before != change.after {
            ScheduleOnceResize();
          }
        }
      }
    }

    /** `visRun`: run the view unless it is absent, the component is hidden, or the
        component is both destroying and destroyed. */
    method VisRun(v: Runtime.View?, encode: Option<string>)
      requires Valid()
      modifies Runtime.Held(v)`runs
      ensures Valid()
      ensures v != null ==> (v.runs ==
        old(v.runs) + (if Guards.RunAllowed(true, isVisible, isDestroyed, isDestroying) then [Runtime.RunRecord(encode, v.Current())] else []))
    {
      if v != null && (!isDestroyed || !isDestroying) && isVisible.NotFalse() {
        v.Run(encode);
      }
    }

    /** `windowResize`: re-size the stored view and run its `enter` encode set, when the
        component is visible and resizable. */
    method WindowResize(measuredWidth: real, measuredHeight: real)
      requires Valid()
      modifies Runtime.Held(vis)`width, Runtime.Held(vis)`height, Runtime.Held(vis)`runs
      ensures Valid()
      ensures vis != null && Guards.ResizeAllowed(isVisible, isResizable) ==>
        Sizing.Size(vis.width, vis.height) == Sizing.TargetSize(measuredWidth, measuredHeight, aspectRatio)
        && vis.runs == old(vis.runs) + (if Guards.RunAllowed(true, isVisible, isDestroyed, isDestroying) then [Runtime.RunRecord(Some(EnterEncodeSet), vis.Current())] else [])
      ensures vis != null && !Guards.ResizeAllowed(isVisible, isResizable) ==>
        vis.width == old(vis.width) && vis.height == old(vis.height) && vis.runs == old(vis.runs)
    {
      if isVisible.NotFalse() && isResizable.Truthy() {
        if vis != null {
          SizeVis(vis, measuredWidth, measuredHeight);
          VisRun(vis, Some(EnterEncodeSet));
        }
      }
    }

    /** `scheduleOnceResize`: at most one pass is pending, however often it is asked for. */
    method ScheduleOnceResize()
      requires Valid()
      modifies this`resizePending
      ensures Valid()
      ensures resizePending
    {
      resizePending := true;
    }

    /** The runloop reaching `afterRender`: the pending pass, if any, runs once. */
    method AfterRender(measuredWidth: real, measuredHeight: real)
      requires Valid()
      modifies this`resizePending, Runtime.Held(vis)`width, Runtime.Held(vis)`height, Runtime.Held(vis)`runs
      ensures Valid()
      ensures !resizePending
      ensures vis != null && old(resizePending) && Guards.ResizeAllowed(isVisible, isResizable) ==>
        Sizing.Size(vis.width, vis.height) == Sizing.TargetSize(measuredWidth, measuredHeight, aspectRatio)
        && vis.runs == old(vis.runs) + (if Guards.RunAllowed(true, isVisible, isDestroyed, isDestroying) then [Runtime.RunRecord(Some(EnterEncodeSet), vis.Current())] else [])
      ensures vis != null && !(old(resizePending) && Guards.ResizeAllowed(isVisible, isResizable)) ==>
        vis.width == old(vis.width) && vis.height == old(vis.height) && vis.runs == old(vis.runs)
    {
      if resizePending {
        resizePending := false;
        WindowResize(measuredWidth, measuredHeight);
      }
    }

    /** The window's `resize` event reaching `_onWindowResize`, which (re)starts the debounce. */
    method OnWindowResize()
      requires Valid()
      modifies this`debouncePending
      ensures Valid()
      ensures debouncePending == (old(debouncePending) || resizeSubscribed)
    {
      if resizeSubscribed {
        debouncePending := true;
      }
    }

    /** The debounce timer expiring after 50 ms without another window resize. */
    method DebounceElapsed()
      requires Valid()
      modifies this`debouncePending, this`resizePending
      ensures Valid()
      ensures !debouncePending
      ensures resizePending == (old(resizePending) || old(debouncePending))
    {
      if debouncePending {
        debouncePending := false;
        ScheduleOnceResize();
      }
    }

    /** `_invokeEventMethod`: call view method `m` once per table entry, in entry order;
        nothing happens without a view or without a table. */
    method InvokeEventMethod(m: ListenerMethod, table: Option<seq<Listener>>)
      requires Valid()
      modifies Runtime.Held(vis)`eventListeners, Runtime.Held(vis)`signalListeners
      ensures Valid()
      ensures vis != null ==> (vis.eventListeners ==
        (if table.Some? then Listeners.Invoked(m, Events, old(vis.eventListeners), table.value) else old(vis.eventListeners)))
      ensures vis != null ==> (vis.signalListeners ==
        (if table.Some? then Listeners.Invoked(m, Signals, old(vis.signalListeners), table.value) else old(vis.signalListeners)))
    {
      if vis != null && table.Some? {
        var entries := table.value;
        var i := 0;
        while i < |entries|
          invariant 0 <= i <= |entries|
          invariant vis.eventListeners == Listeners.Invoked(m, Events, old(vis.eventListeners), entries[..i])
          invariant vis.signalListeners == Listeners.Invoked(m, Signals, old(vis.signalListeners), entries[..i])
        {
          var l := entries[i];
          match m {
            case AddEventListener => vis.AddEventListener(l);
            case RemoveEventListener => vis.RemoveEventListener(l);
            case AddSignalListener => vis.AddSignalListener(l);
            case RemoveSignalListener => vis.RemoveSignalListener(l);
          }
          Listeners.InvokedSnoc(m, Events, old(vis.eventListeners), entries[..i], l);
          Listeners.InvokedSnoc(m, Signals, old(vis.signalListeners), entries[..i], l);
          assert entries[..i + 1] == entries[..i] + [l];
          i := i + 1;
        }
        assert entries[..i] == entries;
      }
    }

    method AddEvents(table: Option<seq<Listener>>)
      requires Valid()
      modifies Runtime.Held(vis)`eventListeners, Runtime.Held(vis)`signalListeners
      ensures Valid()
      ensures vis != null ==> (vis.eventListeners ==
        (if table.Some? then Listeners.Registered(old(vis.eventListeners), table.value) else old(vis.eventListeners)))
      ensures vis != null ==> vis.signalListeners == old(vis.signalListeners)
    {
      InvokeEventMethod(AddEventListener, table);
    }

    method RemoveEvents(table: Option<seq<Listener>>)
      requires Valid()
      modifies Runtime.Held(vis)`eventListeners, Runtime.Held(vis)`signalListeners
      ensures Valid()
      ensures vis != null ==> (vis.eventListeners ==
        (if table.Some? then Listeners.Unregistered(old(vis.eventListeners), table.value) else old(vis.eventListeners)))
      ensures vis != null ==> vis.signalListeners == old(vis.signalListeners)
    {
      InvokeEventMethod(RemoveEventListener, table);
    }

    method AddSignalEvents(table: Option<seq<Listener>>)
      requires Valid()
      modifies Runtime.Held(vis)`eventListeners, Runtime.Held(vis)`signalListeners
      ensures Valid()
      ensures vis != null ==> (vis.signalListeners ==
        (if table.Some? then Listeners.Registered(old(vis.signalListeners), table.value) else old(vis.signalListeners)))
      ensures vis != null ==> vis.eventListeners == old(vis.eventListeners)
    {
      InvokeEventMethod(AddSignalListener, table);
    }

    method RemoveSignalEvents(table: Option<seq<Listener>>)
      requires Valid()
      modifies Runtime.Held(vis)`eventListeners, Runtime.Held(vis)`signalListeners
      ensures Valid()
      ensures vis != null ==> (vis.signalListeners ==
        (if table.Some? then Listeners.Unregistered(old(vis.signalListeners), table.value) else old(vis.signalListeners)))
      ensures vis != null ==> vis.eventListeners == old(vis.eventListeners)
    {
      InvokeEventMethod(RemoveSignalListener, table);
    }

    /** `_sizeVis`: `vis.width(w).height(h)` with the size the element and `aspectRatio` give. */
    method SizeVis(v: Runtime.View, measuredWidth: real, measuredHeight: real)
      requires Valid()
      modifies v`width, v`height
      ensures Valid()
      ensures Sizing.Size(v.width, v.height) == Sizing.TargetSize(measuredWidth, measuredHeight, aspectRatio)
    {
      var size := Sizing.TargetSize(measuredWidth, measuredHeight, aspectRatio);
      v.Width(size.width);
      v.Height(size.height);
    }

    /** `_setupWindowResize`: subscribe unless under fastboot. */
    method SetupWindowResize()
      requires Valid()
      modifies this`resizeSubscribed
      ensures Valid()
      ensures resizeSubscribed == (old(resizeSubscribed) || !fastboot)
    {
      if !fastboot {
        resizeSubscribed := true;
      }
    }

    /** `_teardownWindowResize`: unsubscribe unless under fastboot. */
    method TeardownWindowResize()
      requires Valid()
      modifies this`resizeSubscribed
      ensures Valid()
      ensures resizeSubscribed == (old(resizeSubscribed) && fastboot)
    {
      if !fastboot {
        resizeSubscribed := false;
      }
    }
  }
}
