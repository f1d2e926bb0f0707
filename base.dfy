/** Vocabulary shared by the check plugins: optional values, the outcome of
    code that may raise, and what a discovery or check function yields. */
module Base {

  datatype Option<+T> = None | Some(value: T)

  /** The outcome of code that can raise a Python exception. The exception
      is named, not emulated: a raised parse fails as a whole. */
  datatype Result<+T> = Ok(value: T) | Raised(error: string) {
    predicate IsFailure() {
      Raised?
    }

    function PropagateFailure<U>(): Result<U>
      requires Raised?
    {
      Raised(error)
    }

    function Extract(): T
      requires Ok?
    {
      value
    }
  }

  /** Monitoring states as the plugins emit them. */
  const OK: int := 0
  const WARN: int := 1
  const CRIT: int := 2
  const UNKNOWN: int := 3

  /** A (warn, crit) pair of levels, or no levels at all. */
  type Levels = Option<(real, real)>

  /** One performance-data tuple of a legacy check: (name, value, warn, crit, min). */
  datatype Metric = Metric(name: string, value: real, warn: real, crit: real, min: real)

  /** A call into a helper whose code is not part of this model, recorded
      with exactly the arguments the plugin hands over. Of the check
      parameters only whether the plugin passes the service's own parameters
      (`serviceParams`) or an empty dict is recorded; the rendering functions
      are not recorded. */
  datatype Helper =
    | CheckTemperature(serviceParams: bool, reading: real, uniqueName: string, devLevels: Levels, devLevelsLower: Levels,
                       devStatus: Option<int>, devStatusName: Option<string>)
    | CheckLevels(value: real, metricName: string, levelsUpper: Levels, levelsLower: Levels, caption: string)
    | DfCheckFilesystemList(item: string, total: real, free: real, reserved: real)

  /** One result of a check: a state with a text (optionally with metrics),
      or whatever the named helper yields for the given arguments. */
  datatype Output =
    | Report(state: int, text: string)
    | ReportWithPerf(state: int, text: string, perf: seq<Metric>)
    | Delegate(call: Helper)

  /** A discovered service: the item name and whether default parameters
      (`{}`) or no parameters (`None`) come with it. */
  datatype Service = Service(item: Option<string>, hasParams: bool)
}
