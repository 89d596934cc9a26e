/** Whole lifecycles of one component, driven the way Ember and the browser drive it, with
    what each one leaves behind. */
module Scenarios {
  import opened Values
  import Listeners
  import Sizing
  import Runtime
  import Component

  /** Mount with both handler tables, then destroy the element twice: the view is
      finalized once, only after both tables were unbound, and neither namespace keeps a
      listener. */
  method MountThenDestroyTwice(eventTable: seq<Listener>, signalTable: seq<Listener>, width: real, height: real)
    returns (finalizeCount: nat, eventsLeft: seq<Listener>, signalsLeft: seq<Listener>,
             atFinalize: Option<(seq<Listener>, seq<Listener>)>)
    ensures finalizeCount == 1 && eventsLeft == [] && signalsLeft == []
    ensures atFinalize == Some(([], []))
  {
    var spec := new Component.SpecDoc(None);
    var c := new Component.VegaVis(spec, None, false);
    c.events, c.signalEvents := Some(eventTable), Some(signalTable);
    var outcome := c.DidInsertElement(width, height);
    var v := c.vis;
    assert v.eventListeners == Listeners.Registered([], eventTable);
    assert v.signalListeners == Listeners.Registered([], signalTable);
    c.WillDestroyElement();
    c.WillDestroyElement();
    Listeners.BindThenUnbindRestores([], eventTable);
    Listeners.BindThenUnbindRestores([], signalTable);
    finalizeCount, eventsLeft, signalsLeft := v.finalizeCount, v.eventListeners, v.signalListeners;
    atFinalize := v.finalizedWith;
  }

  /** Any number of window resizes within one debounce interval give one resize pass,
      which runs only the `enter` encode set; a second render cycle adds nothing. */
  method CoalescedWindowResizes(signals: nat, width: real, height: real) returns (runs: seq<Runtime.RunRecord>)
    requires signals >= 1
    ensures |runs| == 2 && runs[0].encode.None? && runs[1].encode == Some(EnterEncodeSet)
    ensures runs[1].seen.width == width && runs[1].seen.height == height
  {
    var spec := new Component.SpecDoc(None);
    var c := new Component.VegaVis(spec, None, false);
    var outcome := c.DidInsertElement(width, height);
    var v := c.vis;
    var mounted := v.runs;
    var i := 0;
    while i < signals
      invariant 0 <= i <= signals
      invariant c.Valid() && c.vis == v && v.runs == mounted && |mounted| == 1 && mounted[0].encode.None?
      invariant c.resizeSubscribed && !c.resizePending
      invariant c.isVisible == On && c.isResizable == On && !c.isDestroyed && !c.isDestroying
      invariant c.aspectRatio.None?
      invariant c.debouncePending == (i > 0)
    {
      c.OnWindowResize();
      i := i + 1;
    }
    c.DebounceElapsed();
    c.AfterRender(width, height);
    c.AfterRender(width, height);
    runs := v.runs;
  }

  /** A window resize shortly before the element is destroyed still schedules a pass
      (neither the debounce nor the scheduled pass is cancelled), but the pass finds no
      view and leaves the released one as it was. */
  method ResizePassAfterDestroy(width: real, height: real, laterWidth: real, laterHeight: real)
    returns (passScheduled: bool, sizeBefore: Sizing.Size, sizeAfter: Sizing.Size,
             runsBefore: seq<Runtime.RunRecord>, runsAfter: seq<Runtime.RunRecord>)
    ensures passScheduled
    ensures sizeAfter == sizeBefore && runsAfter == runsBefore
  {
    var spec := new Component.SpecDoc(None);
    var c := new Component.VegaVis(spec, None, false);
    var outcome := c.DidInsertElement(width, height);
    var v := c.vis;
    c.OnWindowResize();
    c.WillDestroyElement();
    sizeBefore, runsBefore := Sizing.Size(v.width, v.height), v.runs;
    c.DebounceElapsed();
    passScheduled := c.resizePending;
    c.AfterRender(laterWidth, laterHeight);
    sizeAfter, runsAfter := Sizing.Size(v.width, v.height), v.runs;
  }

  /** A 400-wide element gives height 200 with aspect ratio 0.5, and its own height 300
      without one. */
  method SizedMounts() returns (withRatio: Sizing.Size, withoutRatio: Sizing.Size)
    ensures withRatio == Sizing.Size(400.0, 200.0)
    ensures withoutRatio == Sizing.Size(400.0, 300.0)
  {
    var spec := new Component.SpecDoc(None);
    var c := new Component.VegaVis(spec, None, false);
    c.aspectRatio := Some(0.5);
    var outcome := c.DidInsertElement(400.0, 300.0);
    withRatio := Sizing.Size(c.vis.width, c.vis.height);

    var spec2 := new Component.SpecDoc(None);
    var d := new Component.VegaVis(spec2, None, false);
    outcome := d.DidInsertElement(400.0, 300.0);
    withoutRatio := Sizing.Size(d.vis.width, d.vis.height);
  }

  /** Under fastboot the view is never initialized and no window listener is added, yet
      the first run still happens; the view carries the default log level and renderer. */
  method ServerRender(width: real, height: real)
    returns (initialized: bool, subscribed: bool, runs: seq<Runtime.RunRecord>, logLevel: Option<string>, renderer: Option<string>)
    ensures !initialized && !subscribed
    ensures |runs| == 1 && runs[0].encode.None? && !runs[0].seen.initialized && runs[0].seen.hovered
    ensures logLevel == Some(DefaultLogLevel) && renderer == Some(DefaultRenderer)
  {
    var spec := new Component.SpecDoc(None);
    var c := new Component.VegaVis(spec, None, true);
    var outcome := c.DidInsertElement(width, height);
    initialized, subscribed, runs := c.vis.initialized, c.resizeSubscribed, c.vis.runs;
    logLevel, renderer := c.vis.logLevel, c.vis.renderer;
  }

  /** Without a spec the mount stops at the assertion: no view is stored. The window
      listener added just before stays subscribed. */
  method MountWithoutSpec(width: real, height: real) returns (outcome: MountOutcome, hasView: bool, subscribed: bool)
    ensures outcome == AssertionFailed("spec property must be defined")
    ensures !hasView && subscribed
  {
    var c := new Component.VegaVis(null, None, false);
    outcome := c.DidInsertElement(width, height);
    hasView, subscribed := c.vis != null, c.resizeSubscribed;
  }

  /** An array `data` attribute goes into a spec without data; a spec that has data keeps it. */
  method DataMerge(datasets: seq<Dataset>, own: Data) returns (merged: Option<Data>, kept: Option<Data>)
    ensures merged == Some(ArrayData(datasets))
    ensures kept == Some(own)
  {
    var spec := new Component.SpecDoc(None);
    var c := new Component.VegaVis(spec, Some(ArrayData(datasets)), false);
    var outcome := c.DidInsertElement(0.0, 0.0);
    merged := c.vis.parsedData;

    var spec2 := new Component.SpecDoc(Some(own));
    var d := new Component.VegaVis(spec2, Some(ArrayData(datasets)), false);
    outcome := d.DidInsertElement(0.0, 0.0);
    kept := d.vis.parsedData;
  }

  /** Hiding the component schedules nothing; showing it again schedules one pass, which
      re-sizes the view and runs `enter`. */
  method HideThenShow(width: real, height: real, newWidth: real, newHeight: real)
    returns (pendingAfterHide: bool, pendingAfterShow: bool, size: Sizing.Size, runs: seq<Runtime.RunRecord>)
    ensures !pendingAfterHide && pendingAfterShow
    ensures size == Sizing.Size(newWidth, newHeight)
    ensures |runs| == 2 && runs[0].encode.None? && runs[1].encode == Some(EnterEncodeSet)
    // the first run sees the mounted size, the `enter` run the new one
    ensures runs[0].seen.width == width && runs[0].seen.height == height
    ensures runs[1].seen.width == newWidth && runs[1].seen.height == newHeight
  {
    var spec := new Component.SpecDoc(None);
    var c := new Component.VegaVis(spec, None, false);
    var outcome := c.DidInsertElement(width, height);
    var v := c.vis;
    c.isVisible := Off;
    c.DidUpdateAttrs(Some(ChangedAttrs(Some(Change(On, Off)), None)));
    pendingAfterHide := c.resizePending;
    c.isVisible := On;
    c.DidUpdateAttrs(Some(ChangedAttrs(Some(Change(Off, On)), None)));
    pendingAfterShow := c.resizePending;
    c.AfterRender(newWidth, newHeight);
    size, runs := Sizing.Size(v.width, v.height), v.runs;
  }

  /** Changing the aspect ratio from 0.5 to 1.0 schedules one pass, which applies the new
      height before it runs `enter`. */
  method AspectRatioChange() returns (pending: bool, heightBefore: real, heightAfter: real, last: Runtime.RunRecord)
    ensures pending && heightBefore == 200.0 && heightAfter == 400.0
    ensures last.encode == Some(EnterEncodeSet) && last.seen.width == 400.0 && last.seen.height == 400.0
  {
    var spec := new Component.SpecDoc(None);
    var c := new Component.VegaVis(spec, None, false);
    c.aspectRatio := Some(0.5);
    var outcome := c.DidInsertElement(400.0, 300.0);
    var v := c.vis;
    heightBefore := v.height;
    c.aspectRatio := Some(1.0);
    c.DidUpdateAttrs(Some(ChangedAttrs(None, Some(Change(Some(0.5), Some(1.0))))));
    pending := c.resizePending;
    c.AfterRender(400.0, 300.0);
    heightAfter := v.height;
    last := v.runs[|v.runs| - 1];
  }
}
