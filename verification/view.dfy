/** The Vega view as far as the component drives it: each method records the call it
    receives. Parsing, rendering and signal propagation belong to the Vega runtime and are
    not modelled; a field that is None has not been set by the component. */
module Runtime {
  import opened Values
  import Listeners

  /** The view a nullable reference holds, as a frame. */
  function Held(v: View?): set<View> {
    if v == null then {} else {v}
  }

  /** The view's settings as a run sees them. */
  datatype Settings = Settings(initialized: bool, width: real, height: real, padding: Option<Padding>,
                               background: Option<string>, logLevel: Option<string>,
                               renderer: Option<string>, hovered: bool)

  /** One `run(encode)` call: its encode set (None when there is none) and the settings it saw. */
  datatype RunRecord = RunRecord(encode: Option<string>, seen: Settings)

  class View {
    /** What `vg.parse(spec, config)` was given: the spec's `data` key and the config. */
    const parsedData: Option<Data>
    const config: Option<Config>

    var initialized: bool
    var width: real
    var height: real
    var padding: Option<Padding>
    var background: Option<string>
    var logLevel: Option<string>
    var renderer: Option<string>
    var hovered: bool
    /** One entry per `run(encode)` call, in call order. */
    var runs: seq<RunRecord>
    var eventListeners: seq<Listener>
    var signalListeners: seq<Listener>
    var finalizeCount: nat
    /** The event and signal listeners as `finalize()` found them, once it was called. */
    var finalizedWith: Option<(seq<Listener>, seq<Listener>)>

    /** `new vg.View(vg.parse(spec, config))` */
    constructor (parsedData: Option<Data>, config: Option<Config>)
      ensures this.parsedData == parsedData && this.config == config
      ensures !initialized && width == 0.0 && height == 0.0
      ensures padding.None? && background.None? && logLevel.None? && renderer.None? && !hovered
      ensures runs == [] && eventListeners == [] && signalListeners == [] && finalizeCount == 0
      ensures finalizedWith.None?
    {
      this.parsedData := parsedData;
      this.config := config;
      initialized := false;
      width, height := 0.0, 0.0;
      padding, background, logLevel, renderer := None, None, None, None;
      hovered := false;
      runs := [];
      eventListeners, signalListeners := [], [];
      finalizeCount := 0;
      finalizedWith := None;
    }

    /** The settings at this moment. */
    function Current(): Settings
      reads this
    {
      Settings(initialized, width, height, padding, background, logLevel, renderer, hovered)
    }

    method Initialize()
      modifies this`initialized
      ensures initialized
    {
      initialized := true;
    }

    method Width(w: real)
      modifies this`width
      ensures width == w
    {
      width := w;
    }

    method Height(h: real)
      modifies this`height
      ensures height == h
    {
      height := h;
    }

    method SetPadding(p: Padding)
      modifies this`padding
      ensures padding == Some(p)
    {
      padding := Some(p);
    }

    method SetBackground(b: string)
      modifies this`background
      ensures background == Some(b)
    {
      background := Some(b);
    }

    method SetLogLevel(level: string)
      modifies this`logLevel
      ensures logLevel == Some(level)
    {
      logLevel := Some(level);
    }

    method SetRenderer(mode: string)
      modifies this`renderer
      ensures renderer == Some(mode)
    {
      renderer := Some(mode);
    }

    method Hover()
      modifies this`hovered
      ensures hovered
    {
      hovered := true;
    }

    method Run(encode: Option<string>)
      modifies this`runs
      ensures runs == old(runs) + [RunRecord(encode, Current())]
    {
      runs := runs + [RunRecord(encode, Current())];
    }

    method AddEventListener(l: Listener)
      modifies this`eventListeners
      ensures eventListeners == old(eventListeners) + [l]
    {
      eventListeners := eventListeners + [l];
    }

    method RemoveEventListener(l: Listener)
      modifies this`eventListeners
      ensures eventListeners == Listeners.RemoveListener(old(eventListeners), l)
    {
      eventListeners := Listeners.RemoveListener(eventListeners, l);
    }

    method AddSignalListener(l: Listener)
      modifies this`signalListeners
      ensures signalListeners == old(signalListeners) + [l]
    {
      signalListeners := signalListeners + [l];
    }

    method RemoveSignalListener(l: Listener)
      modifies this`signalListeners
      ensures signalListeners == Listeners.RemoveListener(old(signalListeners), l)
    {
      signalListeners := Listeners.RemoveListener(signalListeners, l);
    }

    method Finalize()
      modifies this`finalizeCount, this`finalizedWith
      ensures finalizeCount == old(finalizeCount) + 1
      ensures finalizedWith == Some((eventListeners, signalListeners))
    {
      finalizeCount := finalizeCount + 1;
      finalizedWith := Some((eventListeners, signalListeners));
    }
  }
}
