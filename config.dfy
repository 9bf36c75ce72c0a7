/**
 * The configuration of a run (the shared defaults and the ordered watcher
 * list) and the effective settings of one watcher, obtained by laying the
 * watcher's own values over the shared defaults.
 */
module Config {
  import opened Js

  /** One configured action: a command line, or a list of words joined with single spaces. */
  datatype Action = Line(command: string) | Words(words: seq<string>)

  /** A watcher's `screenshot` block. */
  datatype ScreenshotOptions = ScreenshotOptions(
    selector: Option<string>,
    ignoreFoundFileForScreenshotDiff: Option<bool>)

  /** A watcher's `waitForText` block. */
  datatype TextProbe = TextProbe(isPresent: Option<bool>, text: string)

  datatype Watcher = Watcher(
    name: string,
    url: string,
    takeScreenshot: Option<bool>,
    timeout: Option<int>,
    useScreenshotComparison: Option<bool>,
    useTerminalNotifier: Option<bool>,
    actions: Option<seq<Action>>,
    screenshot: Option<ScreenshotOptions>,
    waitForText: Option<TextProbe>)

  /** The `isPresent` flag of a watcher's text probe (`undefined` without a probe). */
  function ProbeFlag(w: Watcher): Option<bool> {
    if w.waitForText.Some? then w.waitForText.value.isPresent else None
  }

  /** Everything of the configuration except the watcher list. */
  datatype Defaults = Defaults(
    takeScreenshot: Option<bool>,
    timeout: Option<int>,
    useScreenshotComparison: Option<bool>,
    useTerminalNotifier: Option<bool>,
    defaultActions: Option<seq<Action>>,
    ignoreFoundFileForScreenshotDiff: Option<bool>,
    sendSms: Option<seq<string>>,
    smsPath: Option<string>,
    terminalNotifierPath: Option<string>)

  datatype Configuration = Configuration(defaults: Defaults, watchers: seq<Watcher>)

  /** Navigation and probe timeout, in milliseconds, when neither level sets one. */
  const DefaultTimeout := 15000

  /** The values one watcher cycle runs with. */
  datatype Settings = Settings(
    timeout: int,
    takeScreenshot: bool,
    useTerminalNotifier: bool,
    useScreenshotComparison: bool,
    ignoreFoundFile: bool)

  /**
   * A boolean switch: enabled when either level enables it, unless the
   * watcher explicitly disables it.
   */
  function OverlayFlag(default: Option<bool>, own: Option<bool>): (r: bool)
    ensures own == Some(false) ==> !r
    ensures own == Some(true) ==> r
    ensures own == None ==> r == IsTrue(default)
  {
    (IsTrue(default) || IsTrue(own)) && own != Some(false)
  }

  /** `watcher.timeout || defaults.timeout || 15000`. */
  function EffectiveTimeout(default: Option<int>, own: Option<int>): (r: int)
    ensures r != 0
    ensures TruthyNumber(own) ==> r == own.value
    ensures !TruthyNumber(own) && TruthyNumber(default) ==> r == default.value
    ensures !TruthyNumber(own) && !TruthyNumber(default) ==> r == DefaultTimeout
  {
    if TruthyNumber(own) then own.value
    else if TruthyNumber(default) then default.value
    else DefaultTimeout
  }

  /** The watcher asks for its found-file to be ignored in its `screenshot` block. */
  predicate WatcherBypass(w: Watcher) {
    w.screenshot.Some? && IsTrue(w.screenshot.value.ignoreFoundFileForScreenshotDiff)
  }

  /** The effective settings of watcher `w` under the shared defaults `d`. */
  function Overlay(d: Defaults, w: Watcher): (s: Settings)
    ensures s.timeout == EffectiveTimeout(d.timeout, w.timeout)
    ensures s.takeScreenshot == OverlayFlag(d.takeScreenshot, w.takeScreenshot)
    ensures s.useTerminalNotifier == OverlayFlag(d.useTerminalNotifier, w.useTerminalNotifier)
    // a `screenshot` block always selects comparison mode; otherwise the flags decide
    ensures w.screenshot.Some? ==> s.useScreenshotComparison
    ensures w.screenshot.None? ==>
      s.useScreenshotComparison == OverlayFlag(d.useScreenshotComparison, w.useScreenshotComparison)
    // the found-file bypass exists only in comparison mode, and only when set to exactly true
    ensures s.ignoreFoundFile ==> s.useScreenshotComparison
    ensures s.ignoreFoundFile <==>
      s.useScreenshotComparison && (IsTrue(d.ignoreFoundFileForScreenshotDiff) || WatcherBypass(w))
  {
    var comparison := w.screenshot.Some? || OverlayFlag(d.useScreenshotComparison, w.useScreenshotComparison);
    Settings(
      timeout := EffectiveTimeout(d.timeout, w.timeout),
      takeScreenshot := OverlayFlag(d.takeScreenshot, w.takeScreenshot),
      useTerminalNotifier := OverlayFlag(d.useTerminalNotifier, w.useTerminalNotifier),
      useScreenshotComparison := comparison,
      ignoreFoundFile := comparison && (IsTrue(d.ignoreFoundFileForScreenshotDiff) || WatcherBypass(w)))
  }
}
