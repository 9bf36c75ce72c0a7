# osx-webpage-notify: a verified model of the watcher cycle

The watcher (`scrape.ts`) visits a list of configured web pages one after the
other. Each page gets one *cycle*:

- The watcher's own settings are laid over the shared defaults.
- A once-per-day `FOUND_<date>` marker can skip the rest of the cycle.
- The page is *collected*, in one of two modes:
  - text mode waits for a text and compares its presence with the expected one;
  - screenshot mode compares a fresh capture with a stored `_Base.png`, bootstraps the base when there is none, and rotates base → `_Base_Old` and latest → base on any difference.
- When the condition is met, the marker is touched and commands are dispatched through the shell:
  - a desktop notification;
  - one SMS per phone number;
  - the configured actions, with `%URL%` / `%NAME%` substituted.

  A missing tool path ends the dispatch early, and a shell command that fails throws.

The model keeps the decision logic and its effects. The effects are the
artifact files (a map from path to contents), the watcher directories and the
ordered list of shell commands issued. It replaces the browser, the pixel
comparator, the clock and the shell's exit status with parameters.

The modules:

- `Js` (js.dfy) — the JavaScript rules the code relies on: truthiness of optional values, `indexOf`/`replace` with a string pattern (first occurrence only), `join`.
- `Config` (config.dfy) — the configuration records and the per-watcher overlay of settings.
- `Artifacts` (artifacts.dfy) — artifact paths, the dated marker, and `ScrapeSpec`, the reference definition of the collection step.
- `Dispatch` (dispatch.dfy):
  - action resolution and placeholder substitution;
  - the notification subtitle;
  - the commands as a `Command` datatype (`Text` gives each one's exact command line);
  - `Plan`, the full dispatch list with its early returns;
  - `Execute`, what the shell runs of a list when a command fails.
- `Cycle` (cycle.dfy) — `CycleSpec`, one cycle as a function of the machine state (files, directories, commands), and `RunUpTo`, the run over the watchers; dedup, isolation and ordering properties.
- `Driver` (driver.dfy) — `class Host`, whose fields hold the files, directories and issued commands. Its methods are written step by step as in the source, each proved equal to the reference definition above:
  - `Scrape` for `scrape`;
  - `Trigger`, `Notify` and `SendSmsAndAct` for the trigger block;
  - `ExecEach` for `forEach(execSync)`;
  - `Instance` for `instance`;
  - `Run` for the top-level loop.
- `Report` (report.dfy) — the FOUND / NOT found word of the log line, as written and as corrected (see Findings).

## Model

| member | source | states |
|---|---|---|
| Js.IndexOfFirst | scrape.ts:191 | the position `indexOf` returns is the first at which the pattern occurs, and it returns none only when the pattern occurs nowhere |
| Js.ReplaceFirst | scrape.ts:191 | `replace` with a string pattern replaces only the first occurrence, and returns the string unchanged when there is none |
| Js.SplitJoin | scrape.ts:194-195 | joining an array action's words with single spaces loses nothing: when no word contains a space, splitting at spaces gives the words back |
| Config.OverlayFlag | scrape.ts:65-69 | a switch is on exactly when the default or the watcher enables it and the watcher does not set it to `false`; an explicit watcher value wins; without one, the default decides |
| Config.EffectiveTimeout | scrape.ts:62 | the timeout is the watcher's if truthy, else the default's if truthy, else 15000; never 0 |
| Config.Overlay | scrape.ts:62-80 | the effective settings: timeout and flags as above; a `screenshot` block always selects comparison mode; the found-file bypass holds exactly in comparison mode with a default or watcher `ignoreFoundFileForScreenshotDiff` of exactly `true` |
| Artifacts.SlashesRewritten | scrape.ts:76 | the date rewrite keeps the length and every character except `/`, which becomes `_`; no `/` remains |
| Artifacts.MarkerPerDay | scrape.ts:75-76 | two different dates (without `_`) give two different marker paths, so each day starts without a marker |
| Artifacts.ScreenshotPathsDistinct | scrape.ts:128-132 | `_Base`, `_Base_Old`, `_Latest` and `_Diff` are four different files |
| Artifacts.ScrapeKeepsFiles | scrape.ts:123-175 | the collection step never removes a file |
| Artifacts.CollectionFailure | scrape.ts:115-175 | a page that fails to load changes no file and the collection resolves to `undefined` |
| Artifacts.TextModeVerdict | scrape.ts:160-170 | text mode is met exactly when the observed presence equals `isPresent` (absent meaning false); the only file written is the optional `_AVAILABLE`/`_UNAVAILABLE` page shot named after the verdict |
| Artifacts.Bootstrap | scrape.ts:134-138 | without a base, the capture becomes the base, the verdict is met, and no latest or diff file is written |
| Artifacts.Comparison | scrape.ts:140-157 | latest and diff are always written; met exactly when more than 0 pixels differ; then old base := previous base and base := latest; otherwise base and old base are unchanged; no other file changes |
| Artifacts.ComparisonAborted | scrape.ts:140-146 | an unreadable base throws before anything is written; a size mismatch throws after the latest capture was written |
| Artifacts.TwoGenerations | scrape.ts:134-154 | after a bootstrap and two confirmed changes, the old base holds the first capture after the bootstrap and the base the newest |
| Artifacts.BootstrapThenSame | scrape.ts:134-157 | with a comparator that finds an image equal to itself, the cycle after a bootstrap with the same capture is not met and keeps the base |
| Dispatch.ResolveActions | scrape.ts:192 | the watcher's actions when it lists at least one (an empty list falls back), otherwise the default actions, otherwise none |
| Dispatch.ActionRuns | scrape.ts:193-198 | one command per resolved action, the `k`-th running the `k`-th action, in order |
| Dispatch.Subtitle | scrape.ts:205-210 | 'Screenshot diff' in comparison mode or with a `screenshot` block, else the found / did-not-find text message chosen by `isPresent` |
| Dispatch.SmsCommands | scrape.ts:226-233 | one SMS command per phone number, the `k`-th addressed to the `k`-th phone, in list order |
| Dispatch.Plan | scrape.ts:188-189 | the dispatch of a met cycle is never empty and starts with the marker's `touch` |
| Dispatch.DispatchOrder | scrape.ts:188-236 | the dispatch is marker, notification (if on), SMS per phone, actions, in that order; a missing notifier path leaves only the marker; a missing SMS path stops everything after the notification, actions included |
| Dispatch.ExecuteStopsAtFirstRejection | scrape.ts:226-236 | the shell is given the commands up to and including the first that fails, and no further; the list succeeds exactly when none fails |
| Dispatch.ExecuteAppend | scrape.ts:218-236 | running two lists back to back is running the first and, only if all of it succeeded, the second |
| Dispatch.PlaceholdersReplaced | scrape.ts:191 | a template with `%NAME%` and later `%URL%`, with no `%` before or between them, gets the name and the URL in their places (e.g. `echo %NAME% %URL%`) |
| Dispatch.FirstPlaceholderOnly | scrape.ts:191 | in `%URL% %URL%` only the first placeholder is replaced |
| Cycle.DedupGate | scrape.ts:84-89 | with today's marker and no bypass, a cycle only creates the watcher's directory: no file changes and no command is issued |
| Cycle.NoTriggerNoCommands | scrape.ts:178-188 | a cycle whose verdict is not met (false, or `undefined` after any caught error, including a size mismatch that already wrote `_Latest`) completes, issues no command, writes no marker, and leaves exactly the collection step's files |
| Cycle.MetCycleDispatches | scrape.ts:188-189 | a met cycle issues what the shell runs of the dispatch, starting with the marker's `touch`; the marker exists afterwards unless that `touch` failed |
| Cycle.DedupIdempotent | scrape.ts:86-189 | after a met cycle without bypass whose `touch` succeeded, a second cycle on the same date, whatever it observes, changes no file and issues nothing |
| Cycle.CollectionErrorContained | scrape.ts:171-178 | a page that fails to load is caught inside the cycle: it completes, changes no file and issues nothing |
| Cycle.CycleExtendsCommands | scrape.ts:61-238 | a cycle only appends to the issued commands, never removes a file, and adds exactly its own directory |
| Cycle.CyclesAppend | scrape.ts:243-245 | every watcher's cycle only appends to the issued commands |
| Cycle.RunOrder | scrape.ts:243-245 | when every cycle only appends, the commands of the first `i` watchers are a prefix of those of the first `n`: configuration order |
| Cycle.RunStops | scrape.ts:243-245 | once a cycle has thrown, no later watcher runs |
| Cycle.RunAdvance | scrape.ts:243-245 | each loop iteration runs the next watcher's cycle on the previous outcome; a cycle that throws is the outcome of the whole run |
| Cycle.CollectionErrorInRun | scrape.ts:243-245 | a watcher whose page fails to load does not stop the run: the files and the commands are as before it |
| Driver.Host.MakeDir | scrape.ts:84 | the directory is added and nothing else changes |
| Driver.Host.Exec | scrape.ts:218 | the command is appended to the issued commands; the call fails exactly when the shell rejects it |
| Driver.Host.Touch | scrape.ts:189 | the `touch` is issued; when it succeeds the marker exists (an existing one is kept); directories are unchanged |
| Driver.Host.ExecEach | scrape.ts:226-236 | the `forEach(execSync)` loop issues exactly what `Execute` runs of the list and succeeds exactly when it does |
| Driver.Host.Scrape | scrape.ts:105-176 | the step-by-step collection leaves the files and verdict given by `ScrapeSpec`; directories and commands are unchanged |
| Driver.Host.Trigger | scrape.ts:188-237 | the trigger block ends in the state given by running the dispatch plan (`TriggerSpec`) |
| Driver.Host.Notify | scrape.ts:200-219 | the notifier branch with its early return, followed by the SMS and actions, issues what `Execute` runs of the notification stage |
| Driver.Host.SendSmsAndAct | scrape.ts:221-236 | the SMS branch with its early return and both loops issue what `Execute` runs of the SMS stage |
| Driver.Host.Instance | scrape.ts:61-238 | one `instance` call ends in the state and outcome given by `CycleSpec` |
| Driver.Host.Run | scrape.ts:240-248 | the top-level loop ends in the state given by `RunUpTo` over all watchers, in configuration order |
| Report.FoundAsWrittenAfterProbe | scrape.ts:160-185 | when the text probe ran, the logged word is FOUND exactly when the text was visible |
| Report.ThrownCollectionLoggedFound | scrape.ts:178-185 | as written, a collection that threw is logged as FOUND whenever `isPresent` is not true |
| Report.FoundMeansVisible | scrape.ts:180-185 | with the correction, FOUND means that the page loaded and showed the text, and conversely |

## Left out

- Browser control (launch, navigation, viewport, load waits, the 10-second settle wait, the element selector, capture) is replaced by a `Page` observation: whether collection succeeds, whether the text is visible, and the captured bytes. The timeout is computed but does not influence the observation.
- Artifacts.TextModeVerdict: a probe that times out or fails (`waitForText` returning `false`) is represented by `Page.textVisible` being false; the contract takes that abstraction as given and does not itself derive it.
- `pixelmatch` and PNG decoding/encoding (floating-point colour threshold 0.1) are replaced by a `compare` parameter. It reports an unreadable base, a size mismatch (where pixelmatch throws) or a diff image with a pixel count.
- A capture error after a successful navigation, or a missing selector element, is folded into `Page.loads`: the model does not record a partial write before such a throw.
- The local date string (`toLocaleDateString`) is a parameter. It is the same for every cycle of one run.
- Failures of `chrome.launch` are outside the `try` and are not modelled. So are `mkdirSync` failures.
- The logger and every other log line are not modelled: wall-clock formatting, the label and the text of the FOUND line, and the `if (text)` guard on that line. Only the FOUND / NOT found decision is.
- Dispatch.ReplaceVariables: does not model `$`-patterns (`$&`, `$1`, …) in the URL or name, which `String.prototype.replace` would expand.
- Dispatch.Text: the command lines are given as the source builds them, but shell quoting and word splitting of those lines are not modelled.
- Commands are recorded as structured `Command` values. The shell's verdict is a function `rejects` of the command: a command fails the same way each time it is issued.
- Loading `config.json` and the async/Promise structure are not modelled: the configuration is a value and the loop is sequential.
- Config.EffectiveTimeout: timeouts are integers; `NaN` and fractional values are not modelled.
- A difference is confirmed on any differing pixel (`numDiffPixels > 0`); there is no larger significance threshold.
- A failing `execSync` throws out of `instance`; the rejected `await` in the top-level loop ends the loop, so no later watcher runs.
- In screenshot mode, the FOUND / NOT found word reflects the image comparison, not any text. Report.FoundMeansVisible states the corrected word for text mode only.

## Findings

| source | as written | input that shows it | evidently intended | confidence | as-written member | corrected member |
|---|---|---|---|---|---|---|
| scrape.ts:178-185 | the word is FOUND when `(conditionMet && isPresent) \|\| (!conditionMet && !isPresent)`, and `conditionMet` is `undefined` when collection threw | a text-mode watcher without `isPresent` whose page fails to load: the line says the text "was FOUND" | a collection that threw reports the text as NOT found | not executed | Report.FoundAsWritten, Report.ThrownCollectionLoggedFound | Report.Found, Report.FoundMeansVisible |
