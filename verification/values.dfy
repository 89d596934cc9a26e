/** Plain values that the vega-vis component reads from its attributes or hands to the Vega view. */
module Values {

  /** A JavaScript value that may be null or undefined. */
  datatype Option<+T> = None | Some(value: T)

  /** A boolean attribute that may also be left unset (null or undefined).
      The component tests such attributes in two different ways: `x !== false`
      (where Unset counts as true) and plain truthiness (where Unset counts as false). */
  datatype Flag = On | Off | Unset {
    /** `x !== false` */
    predicate NotFalse() { this != Off }
    /** `if (x)` */
    predicate Truthy() { this == On }
  }

  /** Vega padding: one number for every side, or an object with one number per side. */
  datatype Padding = Uniform(size: real) | PerSide(top: real, bottom: real, left: real, right: real) {
    /** A number is falsy when it is 0; an object is always truthy. */
    predicate Truthy() {
      match this
      case Uniform(size) => size != 0.0
      case PerSide(_, _, _, _) => true
    }
  }

  /** One named data set, as a Vega spec's `data` array lists them. */
  datatype Dataset = Dataset(name: string, values: seq<int>)

  /** The `data` attribute (and the `data` key of a spec): an array of data sets, or some other value. */
  datatype Data = ArrayData(datasets: seq<Dataset>) | OtherData(text: string) {
    /** `isArray(data)` */
    predicate IsArray() { ArrayData? }
  }

  /** A Vega config document; its contents are interpreted by the runtime only. */
  datatype Config = Config(entries: seq<(string, string)>)

  /** Handler functions are compared by identity; an id stands for one. */
  type Handler = int

  /** One entry of an `events` or `signalEvents` table: a name and the handler registered under it. */
  datatype Listener = Listener(name: string, handler: Handler)

  /** The two listener namespaces of a Vega view. */
  datatype Namespace = Events | Signals

  /** The four view methods `_invokeEventMethod` is called with, by name. */
  datatype ListenerMethod =
    | AddEventListener
    | RemoveEventListener
    | AddSignalListener
    | RemoveSignalListener
  {
    function Target(): Namespace {
      if this == AddEventListener || this == RemoveEventListener then Events else Signals
    }
    predicate Adds() { this == AddEventListener || this == AddSignalListener }
  }

  /** An `(old, new)` pair reported for one watched attribute. */
  datatype Change<T> = Change(before: T, after: T)

  /** What the attribute-diffing decorator reports for the two watched attributes;
      a field is None when that attribute did not change. */
  datatype ChangedAttrs = ChangedAttrs(isVisible: Option<Change<Flag>>, aspectRatio: Option<Change<Option<real>>>)

  /** What `didInsertElement` ends with. */
  datatype MountOutcome = Mounted | AssertionFailed(message: string)

  const SpecAssertionMessage: string := "spec property must be defined"
  const DefaultLogLevel: string := "Warn"
  const DefaultRenderer: string := "svg"
  const EnterEncodeSet: string := "enter"

  /** `logLevel || 'Warn'`: the empty string is falsy. */
  function LogLevelName(logLevel: Option<string>): (name: string)
    ensures name != ""
    ensures logLevel.Some? && logLevel.value != "" ==> name == logLevel.value
    ensures logLevel.None? || logLevel.value == "" ==> name == DefaultLogLevel
  {
    if logLevel.Some? && logLevel.value != "" then logLevel.value else DefaultLogLevel
  }

  /** `if (background)`: the empty string is falsy. */
  predicate BackgroundTruthy(background: Option<string>) {
    background.Some? && background.value != ""
  }

  predicate PaddingTruthy(padding: Option<Padding>) {
    padding.Some? && padding.value.Truthy()
  }
}
